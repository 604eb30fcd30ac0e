/**
 * The outside world of one upload, reduced to values: what the HTTP POST to
 * the inference service returned, what the file write did, the clock and the
 * environment. With these fixed, the pipeline is deterministic.
 */
module Effects {
  import opened Base

  /** A JavaScript `Error`: its message and the `stack` text V8 attaches. */
  datatype JsError = JsError(message: string, stack: string)

  /** `new Error(message)`: V8 starts the stack with "Error: " and the message, then the call frames. */
  function NewError(message: string, stackFrames: string): JsError {
    JsError(message, "Error: " + message + stackFrames)
  }

  /** An axios size limit; `Infinity` is `Unlimited`. */
  datatype Limit = Unlimited | AtMost(bytes: nat)

  /** One part of a multipart `FormData` body. */
  datatype Part = Part(field: string, value: seq<byte>, filename: string, contentType: string)

  /** Everything the ML client passes to `axios.post` (the multipart boundary header aside). */
  datatype PostRequest = PostRequest(
    url: string,
    form: seq<Part>,
    responseType: string,
    maxContentLength: Limit,
    maxBodyLength: Limit,
    timeoutMs: nat)

  /**
   * How the single `axios.post` settles: rejected without a response
   * (connection refused, DNS failure, the timeout), rejected with a non-2xx
   * response, or resolved with a body that may be absent.
   */
  datatype PostOutcome =
    | NoResponse(message: string)
    | ErrorStatus(status: nat, message: string)
    | Reply(data: Option<seq<byte>>)

  /**
   * How `fs.promises.writeFile` settles. A failed write carries the system's
   * reason and what it left under the file name: `None` when the file was
   * never opened, otherwise the (truncated or partial) content on disk.
   */
  datatype WriteOutcome =
    | WriteOk
    | WriteFailed(reason: string, residue: Option<seq<byte>>)

  /** The effects one request observes, in the order it observes them. */
  datatype Observed = Observed(
    post: PostOutcome,
    now: nat,              // Date.now() when the artifact is named
    write: WriteOutcome,
    stackFrames: string)   // the frames V8 appends to the ML client's error stack

  /** The two environment variables the core reads. */
  datatype ProcessEnv = ProcessEnv(mlServiceUrl: Option<string>, nodeEnv: Option<string>)

  /** A collaborator invocation, as recorded in the trace. */
  datatype Call =
    | MlCall(image: seq<byte>)          // the route handler calls sendToMLService
    | HttpPost(request: PostRequest)    // the ML client calls axios.post
    | StoreCall(data: seq<byte>)        // the ML client calls uploadToStorage

  /** Ghost record of which collaborators were invoked, in order. */
  class Trace {
    ghost var calls: seq<Call>

    constructor ()
      ensures calls == []
    {
      calls := [];
    }
  }
}
