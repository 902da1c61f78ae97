/** The demo transcription route src/app/api/stt/route.ts: a form without an `audio` field is
    refused, otherwise the answer is one of five fixed sentences picked by the upload's size. */
module SttMock {
  import opened Js

  /** The uploaded file as the route uses it: its MIME type and its length in bytes. */
  datatype AudioFile = AudioFile(mimeType: string, byteLength: nat)

  /** `req.formData()`: the `audio` entry (a file, or a plain text field), or the error that
      reading the form threw. */
  datatype Form = Form(audio: AudioFile) | TextField(text: string) | NoAudio | FormThrows(error: Thrown)

  /** A non-empty text field passes the `!file` test but has no `arrayBuffer` to call. */
  const NoArrayBuffer: Thrown := ErrorObject("file.arrayBuffer is not a function")

  /** The five sentences `mockSTTProcessing` chooses from. */
  const MockTexts: seq<string> := [
    "안녕하세요",
    "음성 인식이 잘 되고 있습니다",
    "서버에서 처리 중입니다",
    "모바일에서도 정상 동작합니다",
    "텍스트가 실시간으로 업데이트됩니다"
  ]

  /** `Math.floor(sizeKB / 10) % mockTexts.length` with `sizeKB = buffer.length / 1024`, on exact
      reals. */
  function MockIndex(byteLength: nat): int {
    ((byteLength as real / 1024.0) / 10.0).Floor % |MockTexts|
  }

  /** The index is the number of whole 10 KiB blocks modulo five, so it is a valid index. */
  lemma MockIndexIsBlocks(byteLength: nat)
    ensures MockIndex(byteLength) == (byteLength / 10240) % 5
    ensures 0 <= MockIndex(byteLength) < |MockTexts|
  {
    var q, r := byteLength / 10240, byteLength % 10240;
    assert byteLength == 10240 * q + r;
    assert (byteLength as real / 1024.0) / 10.0 == q as real + r as real / 10240.0;
  }

  function MockText(byteLength: nat): (text: string)
    ensures text in MockTexts
  {
    MockIndexIsBlocks(byteLength);
    MockTexts[MockIndex(byteLength)]
  }

  /** The responses of POST. */
  datatype SttResponse =
    | Recognized(text: string, partial: bool)   // 200
    | MissingAudio                              // 400, `audio file missing`
    | SttFailed(details: string)                // 500, `STT processing failed`

  function Status(r: SttResponse): int {
    match r
    case Recognized(_, _) => 200
    case MissingAudio => 400
    case SttFailed(_) => 500
  }

  /** POST. */
  function Post(form: Form): (r: SttResponse)
    ensures form.NoAudio? || form == TextField([]) <==> r == MissingAudio
    ensures form.FormThrows? || (form.TextField? && form.text != []) <==> r.SttFailed?
    ensures form.FormThrows? ==> r.details == MessageOr(form.error, "Unknown error")
    ensures form.TextField? && form.text != [] ==> r.details == "file.arrayBuffer is not a function"
    ensures form.Form? <==> r.Recognized?
    ensures r.Recognized? ==> r.partial && r.text in MockTexts
  {
    match form
    case NoAudio => MissingAudio
    case TextField(t) => if t == [] then MissingAudio else SttFailed(MessageOr(NoArrayBuffer, "Unknown error"))
    case FormThrows(e) => SttFailed(MessageOr(e, "Unknown error"))
    case Form(audio) => Recognized(MockText(audio.byteLength), true)
  }

  /** The text depends only on the byte length: files of the same size, whatever their type, get the
      same answer, and so do sizes a multiple of 50 KiB apart. */
  lemma TextDependsOnlyOnLength(a: AudioFile, b: AudioFile, k: nat)
    requires b.byteLength == a.byteLength + 51200 * k || b.byteLength == a.byteLength
    ensures Post(Form(a)) == Post(Form(b))
  {
    MockIndexIsBlocks(a.byteLength);
    MockIndexIsBlocks(b.byteLength);
    if b.byteLength != a.byteLength {
      assert b.byteLength / 10240 == a.byteLength / 10240 + 5 * k;
    }
  }

  /** Every sentence is reachable: a file of `i` times 10 KiB gets sentence `i`. */
  lemma EverySentenceReachable(i: nat)
    requires i < |MockTexts|
    ensures Post(Form(AudioFile("audio/webm", 10240 * i))) == Recognized(MockTexts[i], true)
  {
    MockIndexIsBlocks(10240 * i);
  }
}
