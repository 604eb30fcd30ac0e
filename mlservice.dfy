/**
 * The inference client (backend/src/utils/mlService.js): one multipart POST
 * to the inference service, then storage of the returned bytes, with every
 * failure rewrapped as an "ML Service error".
 */
module MlService {
  import opened Base
  import opened Effects
  import Storage

  const DefaultMlServiceUrl := "http://127.0.0.1:5001"
  const ProcessPath := "/process"
  const TimeoutMs := 120000
  const ErrorPrefix := "ML Service error: "
  const NoDataMessage := "No data received from ML service"

  /** `process.env.ML_SERVICE_URL || 'http://127.0.0.1:5001'`: unset and empty both fall back. */
  function MlServiceUrl(env: Option<string>): (url: string)
    ensures env.Some? && env.value != "" ==> url == env.value
    ensures env.None? || env.value == "" ==> url == DefaultMlServiceUrl
    ensures url != ""
  {
    if env.Some? && env.value != "" then env.value else DefaultMlServiceUrl
  }

  /** The one request the client builds, whatever bytes it is handed. */
  function MlRequest(baseUrl: string, image: seq<byte>): PostRequest {
    PostRequest(baseUrl + ProcessPath, [Part("image", image, "image.jpg", "image/jpeg")],
                "arraybuffer", Unlimited, Unlimited, TimeoutMs)
  }

  /** `form-data`'s `FormData`, which the client fills with `append`. */
  class FormData {
    var parts: seq<Part>

    constructor ()
      ensures parts == []
    {
      parts := [];
    }

    method Append(field: string, value: seq<byte>, filename: string, contentType: string)
      modifies this
      ensures parts == old(parts) + [Part(field, value, filename, contentType)]
    {
      parts := parts + [Part(field, value, filename, contentType)];
    }
  }

  /** What `sendToMLService` resolves to: `{ url }`. */
  datatype Processed = Processed(url: string)

  /** One call's result, the collaborators it invoked, and the uploads directory afterwards. */
  datatype MlRun = MlRun(result: Result<Processed, JsError>, calls: seq<Call>, files: Storage.Files)

  /** The message of the error the catch block receives, before it is rewrapped. */
  function CaughtMessage(post: PostOutcome, storeError: Option<string>): string
    requires post.Reply? && post.data.Some? ==> storeError.Some?
  {
    match post
    case NoResponse(message) => message
    case ErrorStatus(_, message) => message
    case Reply(data) => if data.None? then NoDataMessage else storeError.value
  }

  /** `sendToMLService(image)` against the base URL `baseUrl`, with the world behaving as `fx`. */
  function Send(baseUrl: string, image: seq<byte>, fx: Observed, files: Storage.Files): (run: MlRun)
    // exactly one POST, first; storage is reached only with data in hand, and then with that data
    ensures run.calls == [HttpPost(MlRequest(baseUrl, image))] +
      (if fx.post.Reply? && fx.post.data.Some? then [StoreCall(fx.post.data.value)] else [])
    ensures run.result.Success? <==> fx.post.Reply? && fx.post.data.Some? && fx.write.WriteOk?
    ensures run.result.Success? ==>
      run.result.value.url == Storage.Url(Storage.FileName(fx.now)) &&
      Storage.Resolve(run.files, Storage.UrlPort, run.result.value.url) == Some(fx.post.data.value)
    ensures run.result.Failure? ==>
      var e := run.result.error;
      |e.message| >= |ErrorPrefix| && e.message[..|ErrorPrefix|] == ErrorPrefix &&
      e.stack == "Error: " + e.message + fx.stackFrames
    ensures (fx.post.NoResponse? || fx.post.ErrorStatus?) ==>
      run.result.Failure? && run.result.error.message == ErrorPrefix + fx.post.message
    ensures fx.post == Reply(None) ==>
      run.result.Failure? && run.result.error.message == ErrorPrefix + NoDataMessage
    ensures fx.post.Reply? && fx.post.data.Some? && fx.write.WriteFailed? ==>
      run.result.Failure? && run.result.error.message == ErrorPrefix + Storage.FailedToSave
    // nothing is written unless the POST brought data back
    ensures !(fx.post.Reply? && fx.post.data.Some?) ==> run.files == files
    // and then only the entry named after the clock reading can appear or change
    ensures run.files.Keys <= files.Keys + {Storage.FileName(fx.now)}
    ensures forall name :: name in files && name != Storage.FileName(fx.now) ==>
      name in run.files && run.files[name] == files[name]
  {
    var posted := [HttpPost(MlRequest(baseUrl, image))];
    if fx.post.Reply? && fx.post.data.Some? then
      var store := Storage.Store(files, fx.post.data.value, fx.now, fx.write);
      var calls := posted + [StoreCall(fx.post.data.value)];
      match store.result
      case Success(url) => MlRun(Success(Processed(url)), calls, store.files)
      case Failure(message) =>
        MlRun(Failure(NewError(ErrorPrefix + CaughtMessage(fx.post, Some(message)), fx.stackFrames)), calls, store.files)
    else
      MlRun(Failure(NewError(ErrorPrefix + CaughtMessage(fx.post, None), fx.stackFrames)), posted, files)
  }

  /**
   * `sendToMLService(imageBuffer)` with `ML_SERVICE_URL` resolved to `baseUrl`.
   * Records the POST and the storage call in `log`.
   */
  method SendToMLService(baseUrl: string, imageBuffer: seq<byte>, fx: Observed, dir: Storage.UploadDir, log: Trace)
    returns (r: Result<Processed, JsError>)
    requires dir.Valid() && dir.present
    modifies dir, log
    ensures dir.Valid() && dir.present
    ensures var run := Send(baseUrl, imageBuffer, fx, old(dir.files));
      r == run.result && dir.files == run.files && log.calls == old(log.calls) + run.calls
    ensures log.calls[|old(log.calls)|] == HttpPost(PostRequest(
      baseUrl + "/process", [Part("image", imageBuffer, "image.jpg", "image/jpeg")],
      "arraybuffer", Unlimited, Unlimited, 120000))
  {
    var formData := new FormData();
    formData.Append("image", imageBuffer, "image.jpg", "image/jpeg");
    var request := PostRequest(baseUrl + ProcessPath, formData.parts, "arraybuffer", Unlimited, Unlimited, TimeoutMs);
    log.calls := log.calls + [HttpPost(request)];
    assert request == MlRequest(baseUrl, imageBuffer);
    // `caught` is the message of whatever reaches the catch block
    var caught: Option<string> := None;
    var url := "";
    match fx.post {
    case NoResponse(message) =>
      caught := Some(message);
    case ErrorStatus(_, message) =>
      caught := Some(message);
    case Reply(data) =>
      if data.None? {
        caught := Some(NoDataMessage);
      } else {
        log.calls := log.calls + [StoreCall(data.value)];
        assert log.calls == old(log.calls) + [HttpPost(request), StoreCall(data.value)];
        var stored := dir.UploadToStorage(data.value, fx.now, fx.write);
        match stored {
          case Success(u) => url := u;
          case Failure(message) => caught := Some(message);
        }
      }
    }
    r := if caught.Some? then Failure(NewError(ErrorPrefix + caught.value, fx.stackFrames)) else Success(Processed(url));
  }
}
