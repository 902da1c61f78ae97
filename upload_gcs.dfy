/** The upload route src/app/api/upload-gcs/route.ts with the bucket settings of
    src/config/recordingPolicy.ts: name the object `audio/<timestamp>-<random>.<ext>`, save it in
    the bucket, and answer with its `gs://` URI. The clock, the random part, the environment and
    the storage client are inputs. */
module UploadGcs {
  import opened Wrappers
  import opened Js

  const DefaultBucket: string := "voicememo-storage"
  const FilePathPrefix: string := "audio/"
  const RetentionDays: nat := 7

  /** `process.env.GCS_BUCKET_NAME || 'voicememo-storage'`: the bucket name is never empty, and it is
      the configured name whenever one is set. */
  function BucketName(env: Option<string>): (b: string)
    ensures b != []
    ensures b == DefaultBucket || (env.Some? && b == env.value)
    ensures env.Some? && env.value != [] ==> b == env.value
  {
    if env.Some? && env.value != [] then env.value else DefaultBucket
  }

  /** `file.type.includes('webm') ? 'webm' : 'mp4'`: one of the two container extensions, `webm`
      exactly for a WebM type. */
  function Extension(mimeType: string): (ext: string)
    ensures ext == "webm" || ext == "mp4"
    ensures ext == "webm" <==> Includes(mimeType, "webm")
  {
    if Includes(mimeType, "webm") then "webm" else "mp4"
  }

  function FileName(timestamp: nat, randomStr: string, ext: string): string {
    FilePathPrefix + NatToString(timestamp) + "-" + randomStr + "." + ext
  }

  function GcsUri(bucket: string, fileName: string): string {
    "gs://" + bucket + "/" + fileName
  }

  /** Reads a `gs://bucket/object` URI: the bucket runs up to the first `/` after the scheme. */
  function ParseGcsUri(uri: string): Option<(string, string)> {
    if |uri| >= 5 && uri[..5] == "gs://" then
      var parts := Split(uri[5..], '/');
      if |parts| >= 2 then Some((parts[0], Join(parts[1..], "/"))) else None
    else None
  }

  /** The URI gives back the bucket and the object name, for any bucket name without `/`. */
  lemma GcsUriRoundTrip(bucket: string, fileName: string)
    requires '/' !in bucket
    ensures ParseGcsUri(GcsUri(bucket, fileName)) == Some((bucket, fileName))
  {
    var uri := GcsUri(bucket, fileName);
    assert uri[..5] == "gs://";
    assert uri[5..] == bucket + ['/'] + fileName;
    SplitAtFirst(bucket, fileName, '/');
    var parts := Split(uri[5..], '/');
    assert parts[1..] == Split(fileName, '/');
    JoinSplit(fileName, '/');
  }

  /** Reads `audio/<digits>-<random>.<ext>` back into its timestamp, random part and extension. */
  function ParseFileName(name: string): Option<(nat, string, string)> {
    if |name| >= 6 && name[..6] == FilePathPrefix then
      var dash := Split(name[6..], '-');
      if |dash| == 2 && AllDigits(dash[0]) then
        var dot := Split(dash[1], '.');
        if |dot| == 2 then Some((DecimalValue(dash[0]), dot[0], dot[1])) else None
      else None
    else None
  }

  /** The object name keeps the clock reading, the random part and the extension apart: a random
      part without `-` or `.` (base-36 digits always are) and an extension without `-` or `.` can be
      read back out of it. */
  lemma FileNameRoundTrip(timestamp: nat, randomStr: string, ext: string)
    requires '-' !in randomStr && '.' !in randomStr && '-' !in ext && '.' !in ext
    ensures ParseFileName(FileName(timestamp, randomStr, ext)) == Some((timestamp, randomStr, ext))
  {
    var t := NatToString(timestamp);
    var name := FileName(timestamp, randomStr, ext);
    assert name[..6] == FilePathPrefix;
    assert name[6..] == t + ['-'] + (randomStr + ['.'] + ext);
    assert '-' !in t by {
      forall i | 0 <= i < |t| ensures t[i] != '-' { assert IsDigit(t[i]); }
    }
    SplitAtFirst(t, randomStr + ['.'] + ext, '-');
    SplitNoSep(randomStr + ['.'] + ext, '-');
    SplitAtFirst(randomStr, ext, '.');
    SplitNoSep(ext, '.');
  }

  /** The uploaded file: its MIME type and its length in bytes. */
  datatype AudioFile = AudioFile(mimeType: string, byteLength: nat)

  /** `req.formData()`: the `audio` entry (a file, or a plain text field), or the error that
      reading the form threw. */
  datatype Form = Form(audio: AudioFile) | TextField(text: string) | NoAudio | FormThrows(error: Thrown)

  /** A non-empty text field passes the `!file` test but has no `arrayBuffer` to call. */
  const NoArrayBuffer: Thrown := ErrorObject("file.arrayBuffer is not a function")

  /** What `gcsFile.save` is asked to store. */
  datatype SaveCall = SaveCall(bucket: string, fileName: string, contentType: string, byteLength: nat, retentionDays: string)

  /** The responses of POST. */
  datatype UploadResponse =
    | Uploaded(gcsUri: string, fileName: string, bucket: string)   // 200, `success: true`
    | MissingAudio                                                 // 400, `audio file missing`
    | UploadFailed(message: string, details: Thrown)               // 500, `GCS upload failed`

  /** POST. `now` is `Date.now()`, `randomStr` the random part, `env` the bucket variable and
      `save` what storing the object threw, if anything. The second result is the save call made. */
  function Post(form: Form, now: nat, randomStr: string, env: Option<string>, save: SaveCall -> Option<Thrown>): (UploadResponse, Option<SaveCall>) {
    match form
    case NoAudio => (MissingAudio, None)
    case TextField(t) => (if t == [] then MissingAudio else UploadFailed(MessageOr(NoArrayBuffer, "Unknown error"), NoArrayBuffer), None)
    case FormThrows(e) => (UploadFailed(MessageOr(e, "Unknown error"), e), None)
    case Form(audio) =>
      var bucket := BucketName(env);
      var fileName := FileName(now, randomStr, Extension(audio.mimeType));
      var call := SaveCall(bucket, fileName, audio.mimeType, audio.byteLength, NatToString(RetentionDays));
      match save(call)
      case Some(e) => (UploadFailed(MessageOr(e, "Unknown error"), e), Some(call))
      case None => (Uploaded(GcsUri(bucket, fileName), fileName, bucket), Some(call))
  }

  /** Without an audio field the answer is 400 and nothing is saved. */
  lemma MissingAudioSavesNothing(now: nat, randomStr: string, env: Option<string>, save: SaveCall -> Option<Thrown>)
    ensures Post(NoAudio, now, randomStr, env, save) == (MissingAudio, None)
  {
  }

  /** A text `audio` field is never saved: an empty one is missing audio, and any other fails
      with a 500 because a string has no `arrayBuffer`. */
  lemma TextAudioSavesNothing(text: string, now: nat, randomStr: string, env: Option<string>, save: SaveCall -> Option<Thrown>)
    ensures var (r, call) := Post(TextField(text), now, randomStr, env, save);
      call.None?
      && (text == [] ==> r == MissingAudio)
      && (text != [] ==> r == UploadFailed("file.arrayBuffer is not a function", ErrorObject("file.arrayBuffer is not a function")))
  {
  }

  /** A successful upload reports exactly the bucket and object name it saved under, with the
      object named `audio/<now>-<random>.<ext>` and the URI pointing at it; a failed save is a 500
      carrying the save's error. */
  lemma UploadReportsWhatWasSaved(audio: AudioFile, now: nat, randomStr: string, env: Option<string>, save: SaveCall -> Option<Thrown>)
    ensures var (r, call) := Post(Form(audio), now, randomStr, env, save);
      call.Some? && call.value.bucket == BucketName(env) && call.value.contentType == audio.mimeType
      && call.value.fileName == FileName(now, randomStr, Extension(audio.mimeType))
      && (r.Uploaded? <==> save(call.value).None?)
      && (r.Uploaded? ==> r.bucket == call.value.bucket && r.fileName == call.value.fileName
                          && r.gcsUri == GcsUri(call.value.bucket, call.value.fileName))
      && (r.UploadFailed? ==> r.details == save(call.value).value)
  {
  }

  /** With the default bucket, the reported URI reads back as that bucket and the saved object,
      whose name in turn gives back the clock reading, the random part and the extension. */
  lemma UploadedUriLocatesObject(audio: AudioFile, now: nat, randomStr: string, save: SaveCall -> Option<Thrown>)
    requires '-' !in randomStr && '.' !in randomStr
    requires Post(Form(audio), now, randomStr, None, save).0.Uploaded?
    ensures var r := Post(Form(audio), now, randomStr, None, save).0;
      ParseGcsUri(r.gcsUri) == Some((DefaultBucket, r.fileName))
      && ParseFileName(r.fileName) == Some((now, randomStr, Extension(audio.mimeType)))
  {
    var r := Post(Form(audio), now, randomStr, None, save).0;
    assert '/' !in DefaultBucket;
    GcsUriRoundTrip(DefaultBucket, r.fileName);
    FileNameRoundTrip(now, randomStr, Extension(audio.mimeType));
  }
}
