/**
 * The `POST /upload` route (backend/src/routes/images.js): check that multer
 * produced a file, hand its buffer to the ML client, and answer with exactly
 * one of the 400, success and 500 responses.
 */
module ImagesRoute {
  import opened Base
  import opened Effects
  import opened Express
  import Storage
  import MlService

  /** `req.file` as multer's memory storage leaves it; multer runs with no limits and no file filter. */
  datatype UploadedFile = UploadedFile(originalName: string, mimeType: string, size: nat, buffer: seq<byte>)

  const NoFileMessage := "No image file provided"
  const UploadFailed := "Upload failed"

  function NoFileBody(): JsObject {
    [("error", Str(NoFileMessage))]
  }

  function CompletedBody(url: string): JsObject {
    [("status", Str("completed")), ("processedUrl", Str(url))]
  }

  /** `process.env.NODE_ENV === 'development'` */
  predicate IsDevelopment(nodeEnv: Option<string>) {
    nodeEnv == Some("development")
  }

  /** The 500 body; `stack` is `undefined` outside development. */
  function FailureBody(e: JsError, development: bool): (body: JsObject)
    ensures Keys(Serialize(body)) == if development then ["error", "details", "stack"] else ["error", "details"]
  {
    var body := [("error", Str(UploadFailed)), ("details", Str(e.message)),
                 ("stack", if development then Str(e.stack) else Undefined)];
    assert Serialize(body[2..]) == if development then [("stack", e.stack)] else [];
    assert Serialize(body[1..]) == [("details", e.message)] + Serialize(body[2..]);
    body
  }

  /** The response once the ML client has settled: the success JSON, or the outer catch block's 500. */
  function Respond(processed: Result<MlService.Processed, JsError>, development: bool): Sent {
    match processed
    case Success(p) => Sent(200, CompletedBody(p.url))
    case Failure(e) => Sent(500, FailureBody(e, development))
  }

  /** One request's response, the collaborators it invoked, and the uploads directory afterwards. */
  datatype HandlerRun = HandlerRun(response: Sent, calls: seq<Call>, files: Storage.Files)

  /** The handler for a request whose `req.file` is `file`. */
  function Handle(env: ProcessEnv, file: Option<UploadedFile>, fx: Observed, files: Storage.Files): (run: HandlerRun)
    ensures run.response.status in {200, 400, 500}
    // the 400: no file, no collaborator, no write
    ensures run.response.status == 400 <==> file.None?
    ensures file.None? ==> run.response.body == [("error", Str("No image file provided"))] && run.calls == [] && run.files == files
    // with a file, its buffer goes to the ML client as it is, and the POST follows
    ensures file.Some? ==>
      |run.calls| >= 2 && run.calls[0] == MlCall(file.value.buffer) &&
      run.calls[1] == HttpPost(MlService.MlRequest(MlService.MlServiceUrl(env.mlServiceUrl), file.value.buffer))
    // and storage is called after them only with data in hand, and then with that data
    ensures file.Some? ==>
      run.calls == [MlCall(file.value.buffer), HttpPost(MlService.MlRequest(MlService.MlServiceUrl(env.mlServiceUrl), file.value.buffer))] +
        (if fx.post.Reply? && fx.post.data.Some? then [StoreCall(fx.post.data.value)] else [])
    // success iff a file came, the POST brought data and the write finished; the URL resolves to that data
    ensures run.response.status == 200 <==> file.Some? && fx.post.Reply? && fx.post.data.Some? && fx.write.WriteOk?
    ensures run.response.status == 200 ==>
      var url := Storage.Url(Storage.FileName(fx.now));
      run.response.body == [("status", Str("completed")), ("processedUrl", Str(url))] &&
      Storage.Resolve(run.files, Storage.UrlPort, url) == Some(fx.post.data.value)
    // the 500 carries the ML client's error untouched; its stack only in development
    ensures run.response.status == 500 ==>
      var e := MlService.Send(MlService.MlServiceUrl(env.mlServiceUrl), file.value.buffer, fx, files).result.error;
      |run.response.body| == 3 &&
      run.response.body[0] == ("error", Str("Upload failed")) &&
      run.response.body[1] == ("details", Str(e.message)) &&
      run.response.body[2].0 == "stack" &&
      (run.response.body[2].1.Str? <==> env.nodeEnv == Some("development")) &&
      (run.response.body[2].1.Str? ==> run.response.body[2].1.s == e.stack)
    // a request changes at most the entry named after its clock reading
    ensures run.files.Keys <= files.Keys + {Storage.FileName(fx.now)}
    ensures forall name :: name in files && name != Storage.FileName(fx.now) ==>
      name in run.files && run.files[name] == files[name]
  {
    match file
    case None => HandlerRun(Sent(400, NoFileBody()), [], files)
    case Some(f) =>
      var ml := MlService.Send(MlService.MlServiceUrl(env.mlServiceUrl), f.buffer, fx, files);
      HandlerRun(Respond(ml.result, IsDevelopment(env.nodeEnv)), [MlCall(f.buffer)] + ml.calls, ml.files)
  }

  /**
   * `router.post('/upload', upload.single('image'), async (req, res) => …)`
   * for a request whose `req.file` is `file`, on a fresh `res`.
   */
  method PostUpload(env: ProcessEnv, file: Option<UploadedFile>, fx: Observed,
                    res: Res, dir: Storage.UploadDir, log: Trace)
    requires res.statusCode == 200 && res.sent == []
    requires dir.Valid() && dir.present
    modifies res, dir, log
    ensures dir.Valid() && dir.present
    // exactly one response is sent
    ensures |res.sent| == 1
    ensures var run := Handle(env, file, fx, old(dir.files));
      res.sent == [run.response] && dir.files == run.files && log.calls == old(log.calls) + run.calls
  {
    if file.None? {
      var r := res.Status(400);
      r.Json(NoFileBody());
      return;
    }
    ghost var ml := MlService.Send(MlService.MlServiceUrl(env.mlServiceUrl), file.value.buffer, fx, dir.files);
    // the error that reaches the outer catch block, if any
    var thrown: Option<JsError> := None;
    log.calls := log.calls + [MlCall(file.value.buffer)];
    var processed := MlService.SendToMLService(MlService.MlServiceUrl(env.mlServiceUrl), file.value.buffer, fx, dir, log);
    assert log.calls == old(log.calls) + ([MlCall(file.value.buffer)] + ml.calls);
    assert Handle(env, file, fx, old(dir.files)) ==
      HandlerRun(Respond(processed, IsDevelopment(env.nodeEnv)), [MlCall(file.value.buffer)] + ml.calls, dir.files);
    match processed {
      case Success(p) =>
        res.Json(CompletedBody(p.url));
      case Failure(mlError) =>
        // the inner catch rethrows the same error object
        thrown := Some(mlError);
    }
    if thrown.Some? {
      var r := res.Status(500);
      r.Json(FailureBody(thrown.value, IsDevelopment(env.nodeEnv)));
    }
  }

  /**
   * Start-up followed by one upload. Requiring routes/images.js loads
   * storage.js, whose initialisation leaves the uploads directory in place,
   * before any request can reach the handler.
   */
  method ServeFirstUpload(found: bool, contents: Storage.Files, env: ProcessEnv, file: Option<UploadedFile>, fx: Observed)
    returns (res: Res, dir: Storage.UploadDir)
    requires found || contents == map[]
    ensures dir.Valid() && dir.present
    ensures var run := Handle(env, file, fx, contents);
      res.sent == [run.response] && dir.files == run.files
  {
    dir := new Storage.UploadDir.Load(found, contents);
    res := new Res();
    var log := new Trace();
    PostUpload(env, file, fx, res, dir, log);
  }
}
