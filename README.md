# removeer upload pipeline, modelled in Dafny

The backend of removeer takes one uploaded image, sends it to an inference
service that removes the background, writes the returned PNG into a local
`uploads` directory, and answers with a URL for it. This project models that
pipeline in three layers, as the backend has them:

- **Artifact store** (`storage.dfy`, module `Storage`). The uploads directory
  is a class `UploadDir` holding whether it exists and a
  `map<string, seq<byte>>` of its files. Loading the module runs the
  create-if-missing step (`EnsureDir`). `UploadToStorage` names the file
  `processed-<Date.now()>.png`, writes it and returns
  `http://localhost:5000/uploads/<name>`. It fails with
  `Failed to save processed image` when the write fails. `Resolve` is the
  server's static `/uploads` read path (backend/src/server.js:18), modelled
  as a lookup in the directory it serves on the port it listens on.
- **ML client** (`mlservice.dfy`, module `MlService`). It fills a `FormData`
  with the one part `image` / `image.jpg` / `image/jpeg`. It makes one POST to
  `ML_SERVICE_URL + "/process"` with a 120000 ms timeout and no size limits.
  It rejects an absent body, hands the data to storage, and rewraps every
  failure as `ML Service error: <message>`.
- **Route handler** (`images.dfy`, module `ImagesRoute`). It answers 400
  `{error: 'No image file provided'}` when multer produced no file. It
  answers `{status: 'completed', processedUrl}` when the ML client succeeds.
  Otherwise it answers 500 `{error: 'Upload failed', details, stack}`, where
  `stack` is `undefined`, and so dropped from the JSON, unless `NODE_ENV` is
  `development`.

Every external effect is an input (module `Effects`):
- what the POST settled to: no response, a non-2xx status, or a reply whose data may be absent;
- how the file write settled;
- the clock reading;
- the stack frames V8 attaches to an error;
- the two environment variables.

With these inputs fixed, each layer is a function (`Storage.Store`,
`MlService.Send`, `ImagesRoute.Handle`) whose contract states what the source
promises. An imperative method proved equal to that function
(`UploadDir.UploadToStorage`, `SendToMLService`, `PostUpload`) models the
code step by step on the directory, the `FormData`, the Express `res` object
and a ghost `Trace` of the collaborators invoked. `PipelineProperties` holds
the lemmas that span the layers.

Where the design and the code differ, the model follows the code:
- Errors are plain `Error` messages, not typed variants.
- A zero-length reply body is stored, not rejected. Only an absent body is refused.
- A non-2xx status reaches the caller only through the axios message text.
- Two artifacts stored in the same millisecond share a name, and the second overwrites the first.
- The server checks neither the size nor the media type of an upload.
- The returned URL names port 5000 whatever `PORT` the server listens on (compare backend/src/server.js:6). `Resolve` takes the listening port, and a returned URL resolves on no other port.

## Model

| member | source | states |
|---|---|---|
| `Decimal.FromNat` | backend/src/utils/storage.js:13 | the timestamp inside the file name is a non-empty string of decimal digits with no leading zero, one digit exactly for values below 10 |
| `Decimal.RoundTrip` | backend/src/utils/storage.js:13 | parsing the rendered timestamp gives it back, and the only string that parses to a number is that number's rendering |
| `Decimal.FromNatInjective` | backend/src/utils/storage.js:13 | two timestamps render to the same digits exactly when they are equal |
| `Storage.FileName` | backend/src/utils/storage.js:13 | the generated name is `processed-` + digits + `.png` and reading the timestamp back out of it gives the clock value used |
| `Storage.ParseFileNameExact` | backend/src/utils/storage.js:13 | any name that parses as a generated name is the generated name of the timestamp it parses to |
| `Storage.FileNameInjective` | backend/src/utils/storage.js:13 | equal timestamps and only equal timestamps give the same file name, so identical timestamps target the same file |
| `Storage.Url` | backend/src/utils/storage.js:20 | the URL is the fixed prefix `http://localhost:5000/uploads/` followed by the file name, which can be read back from it |
| `Storage.ServedPrefixOfUrlPort` | backend/src/server.js:6 | a server listening on the default port 5000 serves `/uploads` under exactly the prefix written into returned URLs |
| `Storage.OnlyUrlPortServes` | backend/src/utils/storage.js:20 | no server on a port other than 5000 serves a prefix of a returned URL: the URL ignores the configured port |
| `Storage.ResolveUrl` | backend/src/server.js:18 | fetching a returned URL through the static `/uploads` route (`Storage.Resolve`) yields exactly the directory entry under its file name if the server listens on port 5000, and nothing on any other port or when there is no such entry |
| `Storage.Store` | backend/src/utils/storage.js:11-25 | a URL is returned iff the write completed; that URL lies under the fixed prefix, names the file of `now` and resolves to exactly the given bytes; a failed write yields `Failed to save processed image` whatever its reason; only the entry for the generated name can change |
| `Storage.UploadDir.Load` | backend/src/utils/storage.js:4-9 | after the module loads the directory exists and holds what it held before |
| `Storage.UploadDir.EnsureDir` | backend/src/utils/storage.js:7-9 | the directory exists afterwards with its files unchanged; when it already existed nothing changes, so the step is idempotent |
| `Storage.UploadDir.UploadToStorage` | backend/src/utils/storage.js:11-25 | the returned result and the new directory are those of `Storage.Store` on the old directory |
| `Express.Serialize` | backend/src/routes/images.js:47 | a member reaches the JSON exactly when its value is not `undefined`, with its value unchanged |
| `Express.SerializeAppend` | backend/src/routes/images.js:44-48 | serialisation keeps member order: the JSON of a concatenation is the concatenation of the JSONs, so with `Serialize` on one member it fixes the whole output |
| `Express.Res.Status` | backend/src/routes/images.js:16 | `res.status(code)` sets the status code, sends nothing and returns `res` itself |
| `Express.Res.Json` | backend/src/routes/images.js:31-34 | `res.json(body)` sends one response carrying the current status code and `body` |
| `MlService.MlServiceUrl` | backend/src/utils/mlService.js:5 | the base URL is `ML_SERVICE_URL` when it is set and non-empty, otherwise `http://127.0.0.1:5001` |
| `MlService.FormData.constructor` | backend/src/utils/mlService.js:11 | a new form has no parts |
| `MlService.FormData.Append` | backend/src/utils/mlService.js:12-15 | appending adds exactly one part with the given field, value, file name and content type at the end |
| `MlService.Send` | backend/src/utils/mlService.js:7-54 | exactly one POST is made, first, with no retry; storage is called only when the reply has data, and then with exactly that data; success (`{url}` with the stored file's URL, which resolves to the data) iff the reply has data and the write completes; every failure is a new error (`Effects.NewError`, line 52) `ML Service error: ` + the message that reached the catch block (`MlService.CaughtMessage`, lines 40 and 52): the transport message, the no-data message or the storage message, with a stack that begins `Error: ` + that message; nothing is written unless data came back, and no file other than the one named after the clock reading appears or changes |
| `MlService.SendToMLService` | backend/src/utils/mlService.js:7-54 | the result, the directory and the recorded calls are those of `MlService.Send`; the one POST, which is `MlService.MlRequest` (lines 11-26), targets `<base>/process` with the single part `image`/`image.jpg`/`image/jpeg` holding the given bytes, `arraybuffer` responses, unlimited content and body length and a 120000 ms timeout |
| `ImagesRoute.FailureBody` | backend/src/routes/images.js:44-48 | the serialised 500 body has the members `error`, `details`, `stack` in development and only `error`, `details` otherwise |
| `ImagesRoute.Handle` | backend/src/routes/images.js:10-50 | the catch-or-complete answer is built by `ImagesRoute.Respond` (lines 31-48); status is 400, 200 or 500; 400 with `{error:'No image file provided'}` (`ImagesRoute.NoFileBody`, line 16) iff there is no file, and then no collaborator is called and nothing is written; with a file its buffer is handed on unchanged, the POST follows, and the only further call is the store of the reply's data, made exactly when the reply has data; 200 iff the POST brought data and the write completed, with body exactly `{status:'completed', processedUrl}` (`ImagesRoute.CompletedBody`, lines 31-34) whose URL resolves to the data on port 5000; 500 carries `error:'Upload failed'`, `details` equal to the ML client's error message, and the stack exactly when `NODE_ENV === 'development'` (`ImagesRoute.IsDevelopment`, line 47); at most the entry named after the clock reading appears or changes, every other file stays as it was |
| `ImagesRoute.ServeFirstUpload` | backend/src/routes/images.js:4-5 | loading the routes loads the store first, so the directory exists before the first request; the response sent and the directory afterwards are those of `ImagesRoute.Handle` on the directory as found |
| `ImagesRoute.PostUpload` | backend/src/routes/images.js:10-50 | exactly one response is sent, and it, the directory and the recorded calls are those of `ImagesRoute.Handle`; the inner catch rethrows the ML client's error unchanged into the 500 branch |
| `PipelineProperties.MetadataIgnored` | backend/src/routes/images.js:28 | the declared name, media type and size of an upload change nothing; only its buffer matters, and there is no size or type check |
| `PipelineProperties.UnreachableService` | backend/src/utils/mlService.js:40-52 | when the inference service cannot be reached the answer is a 500 whose details are `ML Service error: ` + the transport message; the only calls are the hand-off to the ML client and the one POST, so storage is not called and no file appears |
| `PipelineProperties.ResponseDependsOnlyOnMessage` | backend/src/utils/mlService.js:42-52 | two non-2xx answers with the same message and different status codes produce the same response |
| `PipelineProperties.AbsentData` | backend/src/utils/mlService.js:31-33 | an absent reply body answers 500 with details `ML Service error: No data received from ML service` and stores nothing |
| `PipelineProperties.EmptyBodyIsStored` | backend/src/utils/mlService.js:31 | a zero-length reply body passes the check, is stored, and the answer is a success whose URL resolves to the empty file |
| `PipelineProperties.WriteFailureReasonDiscarded` | backend/src/utils/storage.js:21-24 | a failed write answers 500 with details `ML Service error: Failed to save processed image`, and the write's own reason does not change the response |
| `PipelineProperties.StackOnlyInDevelopment` | backend/src/routes/images.js:47 | a POST without data or a failed write gives a 500, and then the `stack` member is on the wire iff `NODE_ENV` is `development` |
| `PipelineProperties.SameMillisecondOverwrites` | backend/src/utils/storage.js:13-16 | two uploads stored in the same millisecond get the same URL, and that URL then yields the second upload's bytes |
| `PipelineProperties.DistinctMillisecondsKeepBoth` | backend/src/utils/storage.js:13-16 | uploads stored in different milliseconds both stay retrievable, each with its own bytes |
| `PipelineProperties.FailureKeepsEarlierArtifacts` | backend/src/utils/storage.js:16 | a POST without data or a failed write gives a 500 and leaves every earlier artifact under another name retrievable with its bytes |

## Left out

- Console logging throughout, including the branch on `error.response` / `error.request` in the ML client's catch block (backend/src/utils/mlService.js:41-51). That branch only logs. The model assumes `error.response.data.toString()` there does not itself throw.
- PipelineProperties.ResponseDependsOnlyOnMessage: the message of an `ErrorStatus` outcome is a free input. axios words a non-2xx rejection as `Request failed with status code <N>`, so in the running system the status code does reach `details` through that message; the lemma says only that the route adds nothing of its own beyond the message.
- HTTP and multipart encoding: the boundary header from `formData.getHeaders()` and axios's status handling, whose outcomes are the abstract inputs in `Effects`; and multer's parsing, whose outcome is the handler's `file` parameter (`Option<ImagesRoute.UploadedFile>`).
- Requests that `upload.single('image')` itself rejects (backend/src/routes/images.js:10), such as a file under another field name ("Unexpected field") or a malformed multipart body. The handler never runs for them, and Express's default error handler answers instead of any of the three modelled responses.
- Express routing and error middleware, CORS and `express.json()` (backend/src/server.js). The static `/uploads` route is modelled only as `Storage.Resolve`, a lookup on the listening port.
- Storage.Resolve: the "resolves to exactly the bytes" clauses of `Storage.Store`, `MlService.Send` and `ImagesRoute.Handle` hold only if the server was started from `backend/`. Files are written under `__dirname/../../uploads` (backend/src/utils/storage.js:4), but the server serves `uploads` relative to its working directory (backend/src/server.js:18). In the model the served directory is taken to be the store's. The port condition is stated: only port 5000 resolves, whatever `PORT` is set to. The host is always `localhost`, so the URL works only for a client on the same machine.
- Storage.UploadDir.Load: assumes `fs.mkdirSync` (backend/src/utils/storage.js:8) succeeds. If it throws (EACCES, EROFS), loading storage.js fails, and so does loading mlService.js and routes/images.js, so the server never starts; the model has no outcome input for this.
- Concurrency between simultaneous requests. The pipeline is modelled one request at a time; interleavings are approximated by running `Handle` twice in sequence on the same directory.
- The real clock, file system and network. They are the inputs `now`, `write` and `post`.
- A failed write's residue is an arbitrary input. The model does not say that it is a prefix of the bytes being written.
- Decimal.FromNat: renders every natural number in plain digits. JavaScript switches to exponent notation from 10^21, which `Date.now()` does not reach.
- The ML service itself (ml-service/api.py), the frontend, the smoke test test_ml_service.py and the unused schema backend/src/models_backup/Image.js are not part of this model.
