/** The long-audio transcription route src/app/api/stt-long/route.ts: validate the request body,
    choose the audio encoding from the MIME type, send a fixed recognition configuration, join the
    first alternative of every result, and on failure extract a message and a status from the
    thrown error. The recognition service and `JSON.parse` are oracle inputs. */
module SttLong {
  import opened Wrappers
  import opened Js

  datatype Encoding = WebmOpus | Linear16

  /** `mimeType.includes(fragment)` on the two kinds of value that have an `includes` method: a
      substring test on a string, a test for an element equal to the string on an array. */
  function MimeIncludes(mimeType: Json, fragment: string): bool
    requires mimeType.JStr? || mimeType.JArr?
  {
    if mimeType.JStr? then Includes(mimeType.s, fragment) else JStr(fragment) in mimeType.items
  }

  /** The encoding chain of `processWithLongRunningRecognize`, tested in order: LINEAR16 exactly
      for a type that includes `wav` but neither `webm` nor `mp4`; every other type, including
      one that includes none of them, gets WEBM_OPUS. */
  function SelectEncoding(mimeType: Json): (e: Encoding)
    requires mimeType.JStr? || mimeType.JArr?
    ensures e == Linear16 <==>
      MimeIncludes(mimeType, "wav") && !MimeIncludes(mimeType, "webm") && !MimeIncludes(mimeType, "mp4")
    ensures e == WebmOpus <==>
      MimeIncludes(mimeType, "webm") || MimeIncludes(mimeType, "mp4") || !MimeIncludes(mimeType, "wav")
  {
    if MimeIncludes(mimeType, "webm") then WebmOpus
    else if MimeIncludes(mimeType, "mp4") then WebmOpus
    else if MimeIncludes(mimeType, "wav") then Linear16
    else WebmOpus
  }

  /** The recognition request: where the audio is and how to recognise it. */
  datatype RecognitionConfig = RecognitionConfig(
    encoding: Encoding, sampleRateHertz: nat, languageCode: string,
    alternativeLanguageCodes: seq<string>, enableAutomaticPunctuation: bool, model: string)
  datatype RecognitionRequest = RecognitionRequest(uri: Json, config: RecognitionConfig)

  /** The part of the configuration that does not depend on the audio. */
  const FixedConfig: RecognitionConfig := RecognitionConfig(WebmOpus, 48000, "ko-KR", ["en-US"], true, "latest_long")

  /** The request of lines 108-120: the audio at the given URI, 48 kHz Korean with English as the
      alternative, punctuation and the `latest_long` model; only the encoding follows the type. */
  function BuildRequest(gcsUri: Json, mimeType: Json): (r: RecognitionRequest)
    requires mimeType.JStr? || mimeType.JArr?
    ensures r.uri == gcsUri
    ensures r.config.(encoding := WebmOpus) == FixedConfig
    ensures r.config.encoding == Linear16 <==>
      MimeIncludes(mimeType, "wav") && !MimeIncludes(mimeType, "webm") && !MimeIncludes(mimeType, "mp4")
  {
    RecognitionRequest(gcsUri, RecognitionConfig(SelectEncoding(mimeType), 48000, "ko-KR", ["en-US"], true, "latest_long"))
  }

  /** The service's answer: `results`, each with optional `alternatives`, each with an optional
      `transcript` (`None` is `undefined`). */
  datatype Alternative = Alternative(transcript: Option<string>)
  datatype SpeechResult = SpeechResult(alternatives: Option<seq<Alternative>>)
  datatype SpeechResponse = SpeechResponse(results: Option<seq<SpeechResult>>)

  /** `result.alternatives?.[0]?.transcript`, with `undefined` as the empty string (both are
      dropped by `filter(Boolean)`). */
  function FirstTranscript(r: SpeechResult): string {
    if r.alternatives.Some? && |r.alternatives.value| > 0 && r.alternatives.value[0].transcript.Some?
    then r.alternatives.value[0].transcript.value
    else []
  }

  function FirstTranscripts(results: seq<SpeechResult>): (ts: seq<string>)
    ensures |ts| == |results| && forall i :: 0 <= i < |results| ==> ts[i] == FirstTranscript(results[i])
  {
    if results == [] then [] else [FirstTranscript(results[0])] + FirstTranscripts(results[1..])
  }

  /** `response.results?.map(…).filter(Boolean).join(' ') || ''`. */
  function Transcript(response: SpeechResponse): (text: string)
    ensures response.results.None? ==> text == []
  {
    if response.results.None? then [] else Join(NonEmpty(FirstTranscripts(response.results.value)), " ")
  }

  /** The transcript is made of the non-empty first transcripts in result order, one space
      between each: when none of them holds a space, splitting it at spaces gives them back. */
  lemma TranscriptPieces(response: SpeechResponse)
    requires response.results.Some?
    requires forall i :: 0 <= i < |response.results.value| ==> ' ' !in FirstTranscript(response.results.value[i])
    ensures var kept := NonEmpty(FirstTranscripts(response.results.value));
      (kept == [] ==> Transcript(response) == [])
      && (kept != [] ==> Split(Transcript(response), ' ') == kept)
  {
    var kept := NonEmpty(FirstTranscripts(response.results.value));
    if kept != [] {
      SplitJoin(kept, ' ');
    }
  }

  /** The error answer: `message`, the status `code`, `details` and `originalError`. */
  datatype ErrorReply = ErrorReply(message: Json, code: Json, details: Json, originalError: string)

  /** The catch block of POST. `parse` is `JSON.parse`, `None` where it throws. */
  function ExtractError(e: Thrown, parse: string -> Option<Json>): (r: ErrorReply)
    ensures e.NonError? ==> r == ErrorReply(JStr("Unknown error"), JNum(500), JNull, e.text)
    ensures e.ErrorObject? ==> r.originalError == e.message
  {
    if e.NonError? then ErrorReply(JStr("Unknown error"), JNum(500), JNull, e.text)
    else
      var fallback := ErrorReply(JStr(e.message), JNum(500), JNull, e.message);
      match parse(e.message)
      case None => fallback
      case Some(errorJson) =>
        match Get(errorJson, "error")
        case Failure(_) => fallback
        case Success(error) =>
          if !TruthyOpt(error) then fallback
          else
            var message := match Get(error.value, "message") case Success(m) => m case Failure(_) => None;
            var code := match Get(error.value, "code") case Success(c) => c case Failure(_) => None;
            ErrorReply(OrElse(message, JStr(e.message)), OrElse(code, JNum(500)), error.value, e.message)
  }

  /** A message that is not JSON, or JSON without a truthy `error`, gives status 500 and the
      message itself. */
  lemma ExtractErrorDefaults(m: string, parse: string -> Option<Json>)
    requires parse(m).None? || (parse(m).value != JNull && !TruthyOpt(Get(parse(m).value, "error").value))
    ensures ExtractError(ErrorObject(m), parse) == ErrorReply(JStr(m), JNum(500), JNull, m)
  {
  }

  /** A Google API error body `{"error": {"message": …, "code": …}}` with a non-empty message and
      a non-zero code sets the reply's message and code, and becomes its details. The reply is sent
      with that code as its status only when the code is an HTTP status from 200 to 599 that may
      carry a body; any other code, a gRPC code such as 3 or the bodiless 204 among them, makes the
      response constructor throw. */
  lemma ExtractErrorFromGoogleBody(m: string, parse: string -> Option<Json>, message: string, code: int, rest: map<string, Json>)
    requires message != [] && code != 0
    requires parse(m) == Some(JObj(map["error" := JObj(rest["message" := JStr(message)]["code" := JNum(code)])]))
    ensures var r := ExtractError(ErrorObject(m), parse);
      && r.message == JStr(message) && r.code == JNum(code) && r.details.JObj?
      && (0 <= code < 65536 && Sendable(code) ==> Respond(r) == Failed(r) && StatusOf(r.code) == code)
      && (!Sendable(code % 65536) ==> Respond(r) == StatusRejected(JNum(code)))
  {
  }

  /** `status` of the response: WebIDL's `unsigned short` conversion of the value, that is
      `ToNumber` taken modulo 2^16, with `NaN` giving 0. A string, array or object goes through its
      `String()` text, of which a plain digit string is read as a number. */
  function StatusOf(code: Json): (s: int)
    ensures 0 <= s < 65536
  {
    match code
    case JNum(n) => n % 65536
    case JBool(b) => if b then 1 else 0
    case JNull => 0
    case _ =>
      var text := JsString(code);
      if text != [] && AllDigits(text) then DecimalValue(text) % 65536 else 0
  }

  /** A status a response with a JSON body may have: from 200 to 599, and not one of the null-body
      statuses 204, 205 and 304 of the Fetch standard. */
  predicate Sendable(status: int) {
    200 <= status <= 599 && status != 204 && status != 205 && status != 304
  }

  /** `NextResponse.json(…, { status: errorCode })`: a status outside 200 to 599 throws a
      RangeError, and a null-body status with the JSON body a TypeError, out of the handler. */
  function Respond(reply: ErrorReply): SttLongResponse {
    if Sendable(StatusOf(reply.code)) then Failed(reply) else StatusRejected(reply.code)
  }

  /** The status sent is the code itself for every HTTP status code that may carry a body, also
      when it arrives as a digit string; every other status is refused. */
  lemma RespondStatus(reply: ErrorReply, n: nat)
    ensures Sendable(n) && (reply.code == JNum(n) || reply.code == JStr(NatToString(n))) ==>
      Respond(reply) == Failed(reply) && StatusOf(reply.code) == n
    ensures Respond(reply).Failed? <==> 200 <= StatusOf(reply.code) <= 599 && StatusOf(reply.code) !in {204, 205, 304}
  {
    if Sendable(n) && reply.code == JStr(NatToString(n)) {
      DigitStatus(n);
    }
  }

  /** Codes that are refused whatever the rest of the reply: `null`, booleans, the gRPC code 3, a
      code name, and the null-body statuses, also as a digit string or 2^16 further on. */
  lemma RespondRefuses(reply: ErrorReply)
    requires reply.code.JBool?
      || reply.code in [JNull, JNum(3), JStr("NOT_FOUND"), JNum(204), JStr("205"), JNum(304), JNum(204 + 65536)]
    ensures Respond(reply) == StatusRejected(reply.code)
  {
    if reply.code == JStr("NOT_FOUND") {
      assert !IsDigit("NOT_FOUND"[0]);
    } else if reply.code == JStr("205") {
      assert NatToString(205) == "205";
      DigitStatus(205);
    }
  }

  /** A status written as its digits converts to itself. */
  lemma DigitStatus(n: nat)
    requires n < 65536
    ensures StatusOf(JStr(NatToString(n))) == n
  {
  }

  /** What the service does with the request: the finished operation's response, or an error. */
  type Recognizer = RecognitionRequest -> Result<SpeechResponse, Thrown>

  /** The responses of POST. */
  datatype SttLongResponse =
    | Transcribed(text: string)     // 200, `success: true`
    | MissingUri                    // 400, `GCS URI missing`
    | Failed(reply: ErrorReply)     // status `StatusOf(reply.code)`
    | StatusRejected(code: Json)    // out of range or bodiless: the handler throws, a bare 500

  /** `processWithLongRunningRecognize` on the destructured `mimeType`: strings and arrays have
      `includes`; reading it from `undefined` or `null` throws, and calling it on any other value
      throws because it is not a function. */
  function Process(gcsUri: Json, mimeType: Option<Json>, recognize: Recognizer): Result<string, Thrown> {
    match GetOpt(mimeType, "includes")
    case Failure(e) => Failure(e)
    case Success(_) =>
      if mimeType.value.JStr? || mimeType.value.JArr? then
        match recognize(BuildRequest(gcsUri, mimeType.value))
        case Success(response) => Success(Transcript(response))
        case Failure(e) => Failure(e)
      else Failure(ErrorObject("mimeType.includes is not a function"))
  }

  /** POST: `body` is what `req.json()` yields, destructured as `const { gcsUri, mimeType } = body`. */
  function Post(body: Result<Json, Thrown>, recognize: Recognizer, parse: string -> Option<Json>): (r: SttLongResponse)
    ensures body.Failure? ==> r == Respond(ExtractError(body.error, parse))
    ensures body.Success? && body.value.JObj? && !TruthyOpt(Get(body.value, "gcsUri").value) ==> r == MissingUri
  {
    if body.Failure? then Respond(ExtractError(body.error, parse))
    else match Destructure(body.value, "gcsUri", "body")
      case Failure(e) => Respond(ExtractError(e, parse))
      case Success(gcsUri) =>
        if !TruthyOpt(gcsUri) then MissingUri
        else
          var mimeType := Destructure(body.value, "mimeType", "body").value;
          match Process(gcsUri.value, mimeType, recognize)
          case Success(text) => Transcribed(text)
          case Failure(e) => Respond(ExtractError(e, parse))
  }

  /** A request with a URI and a string or array MIME type is sent exactly once in the form
      `BuildRequest` gives, and the reply is its transcript or the extracted error. */
  lemma PostSendsRequest(uri: Json, mimeType: Json, rest: map<string, Json>, recognize: Recognizer, parse: string -> Option<Json>)
    requires Truthy(uri) && (mimeType.JStr? || mimeType.JArr?)
    ensures var body := JObj(rest["gcsUri" := uri]["mimeType" := mimeType]);
      var r := Post(Success(body), recognize, parse);
      match recognize(BuildRequest(uri, mimeType))
      case Success(response) => r == Transcribed(Transcript(response))
      case Failure(e) => r == Respond(ExtractError(e, parse))
  {
    var body := JObj(rest["gcsUri" := uri]["mimeType" := mimeType]);
    assert Destructure(body, "mimeType", "body") == Success(Some(mimeType));
  }

  /** A `null` body fails in the destructuring, before anything is sent. */
  lemma NullBodyFails(recognize: Recognizer, parse: string -> Option<Json>)
    ensures Post(Success(JNull), recognize, parse)
      == Respond(ExtractError(ErrorObject("Cannot destructure property 'gcsUri' of 'body' as it is null."), parse))
  {
    assert "Cannot destructure property '" + "gcsUri" + "' of '" + "body" + "' as it is null."
      == "Cannot destructure property 'gcsUri' of 'body' as it is null.";
  }

  /** An array of MIME types is searched for exact elements: `["audio/wav"]` holds no element
      `wav` and gets WEBM_OPUS, while `["wav"]` gets LINEAR16. */
  lemma ArrayMimeTypeMatchesElements()
    ensures SelectEncoding(JArr([JStr("wav")])) == Linear16
    ensures SelectEncoding(JArr([JStr("audio/wav")])) == WebmOpus
  {
    assert JStr("wav") in [JStr("wav")];
    assert JStr("webm") != JStr("wav") && JStr("mp4") != JStr("wav");
    assert JStr("wav") != JStr("audio/wav");
  }

  /** A body with a URI is answered by `processWithLongRunningRecognize` on its `mimeType`. */
  lemma PostWithUri(fields: map<string, Json>, recognize: Recognizer, parse: string -> Option<Json>)
    requires "gcsUri" in fields && Truthy(fields["gcsUri"])
    ensures var mimeType := if "mimeType" in fields then Some(fields["mimeType"]) else None;
      Post(Success(JObj(fields)), recognize, parse) ==
        match Process(fields["gcsUri"], mimeType, recognize)
        case Success(text) => Transcribed(text)
        case Failure(e) => Respond(ExtractError(e, parse))
  {
  }

  /** Without a usable `mimeType` nothing is sent: a missing or `null` type fails reading
      `includes`, and a number, boolean or object fails calling it. */
  lemma MimeTypeWithoutIncludes(uri: Json, m: Json, recognize: Recognizer)
    ensures Process(uri, None, recognize) == Failure(ErrorObject("Cannot read properties of undefined (reading 'includes')"))
    ensures Process(uri, Some(JNull), recognize) == Failure(ErrorObject("Cannot read properties of null (reading 'includes')"))
    ensures m.JNum? || m.JBool? || m.JObj? ==>
      Process(uri, Some(m), recognize) == Failure(ErrorObject("mimeType.includes is not a function"))
  {
    assert "Cannot read properties of undefined (reading '" + "includes" + "')"
      == "Cannot read properties of undefined (reading 'includes')";
    assert "Cannot read properties of null (reading '" + "includes" + "')"
      == "Cannot read properties of null (reading 'includes')";
  }

  /** Without a URI the recogniser is never consulted: the answer is the same for every recogniser. */
  lemma MissingUriSendsNothing(rest: map<string, Json>, r1: Recognizer, r2: Recognizer, parse: string -> Option<Json>)
    requires "gcsUri" !in rest
    ensures Post(Success(JObj(rest)), r1, parse) == MissingUri == Post(Success(JObj(rest)), r2, parse)
  {
  }
}
