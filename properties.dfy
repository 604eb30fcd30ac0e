/**
 * Properties of the whole pipeline, stated over the handler's specification
 * `ImagesRoute.Handle` and composed across the three layers.
 */
module PipelineProperties {
  import opened Base
  import opened Effects
  import opened Express
  import Storage
  import MlService
  import opened ImagesRoute

  /** Only the buffer is forwarded: the declared name, media type and size change nothing. */
  lemma MetadataIgnored(env: ProcessEnv, f: UploadedFile, g: UploadedFile, fx: Observed, files: Storage.Files)
    requires f.buffer == g.buffer
    ensures Handle(env, Some(f), fx, files) == Handle(env, Some(g), fx, files)
  {
  }

  /** The inference service cannot be reached: a 500 with the transport message, and nothing stored. */
  lemma UnreachableService(env: ProcessEnv, f: UploadedFile, message: string, now: nat,
                           write: WriteOutcome, frames: string, files: Storage.Files)
    ensures var run := Handle(env, Some(f), Observed(NoResponse(message), now, write, frames), files);
      run.response.status == 500 &&
      run.response.body[1] == ("details", Str(MlService.ErrorPrefix + message)) &&
      run.files == files &&
      run.calls == [MlCall(f.buffer), HttpPost(MlService.MlRequest(MlService.MlServiceUrl(env.mlServiceUrl), f.buffer))]
  {
  }

  /**
   * A non-2xx answer reaches the caller only through the axios message: two
   * rejections with the same message and different status codes answer alike.
   */
  lemma ResponseDependsOnlyOnMessage(env: ProcessEnv, f: UploadedFile, s1: nat, s2: nat, message: string,
                              now: nat, write: WriteOutcome, frames: string, files: Storage.Files)
    ensures Handle(env, Some(f), Observed(ErrorStatus(s1, message), now, write, frames), files).response
         == Handle(env, Some(f), Observed(ErrorStatus(s2, message), now, write, frames), files).response
  {
  }

  /** No body at all: the fixed "no data" message, and nothing stored. */
  lemma AbsentData(env: ProcessEnv, f: UploadedFile, now: nat, write: WriteOutcome, frames: string, files: Storage.Files)
    ensures var run := Handle(env, Some(f), Observed(Reply(None), now, write, frames), files);
      run.response.status == 500 &&
      run.response.body[1] == ("details", Str(MlService.ErrorPrefix + MlService.NoDataMessage)) &&
      run.files == files
  {
  }

  /** A zero-length body is not "absent": it is stored and its URL returned. */
  lemma EmptyBodyIsStored(env: ProcessEnv, f: UploadedFile, now: nat, frames: string, files: Storage.Files)
    ensures var run := Handle(env, Some(f), Observed(Reply(Some([])), now, WriteOk, frames), files);
      run.response.status == 200 &&
      Storage.Resolve(run.files, Storage.UrlPort, Storage.Url(Storage.FileName(now))) == Some([])
  {
  }

  /** A failed write answers with the fixed storage message; the system's reason is not passed on. */
  lemma WriteFailureReasonDiscarded(env: ProcessEnv, f: UploadedFile, data: seq<byte>, now: nat,
                                    reason1: string, reason2: string, residue: Option<seq<byte>>,
                                    frames: string, files: Storage.Files)
    ensures var run := Handle(env, Some(f), Observed(Reply(Some(data)), now, WriteFailed(reason1, residue), frames), files);
      run.response.status == 500 &&
      run.response.body[1] == ("details", Str(MlService.ErrorPrefix + Storage.FailedToSave)) &&
      run.response == Handle(env, Some(f), Observed(Reply(Some(data)), now, WriteFailed(reason2, residue), frames), files).response
  {
  }

  /** A request whose POST brings no data or whose write fails is a 500, and its stack goes on the wire exactly in development mode. */
  lemma StackOnlyInDevelopment(env: ProcessEnv, f: UploadedFile, fx: Observed, files: Storage.Files)
    requires !(fx.post.Reply? && fx.post.data.Some? && fx.write.WriteOk?)
    ensures Handle(env, Some(f), fx, files).response.status == 500
    ensures "stack" in Keys(Serialize(Handle(env, Some(f), fx, files).response.body)) <==> env.nodeEnv == Some("development")
  {
  }

  /**
   * Two uploads that are stored in the same millisecond share a file name:
   * the second write replaces the first artifact, and the URL handed to the
   * first caller then yields the second caller's bytes.
   */
  lemma SameMillisecondOverwrites(env: ProcessEnv, f1: UploadedFile, f2: UploadedFile,
                                  d1: seq<byte>, d2: seq<byte>, now: nat, frames: string, files: Storage.Files)
    ensures var first := Handle(env, Some(f1), Observed(Reply(Some(d1)), now, WriteOk, frames), files);
      var second := Handle(env, Some(f2), Observed(Reply(Some(d2)), now, WriteOk, frames), first.files);
      first.response.status == 200 && second.response.status == 200 &&
      first.response.body == second.response.body &&
      Storage.Resolve(second.files, Storage.UrlPort, Storage.Url(Storage.FileName(now))) == Some(d2)
  {
  }

  /** Uploads stored in different milliseconds both stay retrievable, each with its own bytes. */
  lemma DistinctMillisecondsKeepBoth(env: ProcessEnv, f1: UploadedFile, f2: UploadedFile,
                                     d1: seq<byte>, d2: seq<byte>, now1: nat, now2: nat,
                                     frames: string, files: Storage.Files)
    requires now1 != now2
    ensures var first := Handle(env, Some(f1), Observed(Reply(Some(d1)), now1, WriteOk, frames), files);
      var second := Handle(env, Some(f2), Observed(Reply(Some(d2)), now2, WriteOk, frames), first.files);
      Storage.Resolve(second.files, Storage.UrlPort, Storage.Url(Storage.FileName(now1))) == Some(d1) &&
      Storage.Resolve(second.files, Storage.UrlPort, Storage.Url(Storage.FileName(now2))) == Some(d2)
  {
    var first := Handle(env, Some(f1), Observed(Reply(Some(d1)), now1, WriteOk, frames), files);
    var second := Handle(env, Some(f2), Observed(Reply(Some(d2)), now2, WriteOk, frames), first.files);
    Storage.FileNameInjective(now1, now2);
    Storage.ResolveUrl(first.files, Storage.UrlPort, Storage.FileName(now1));
    Storage.ResolveUrl(second.files, Storage.UrlPort, Storage.FileName(now1));
  }

  /** A request whose POST brings no data or whose write fails is a 500 and never removes or alters the artifact of an earlier, successful one. */
  lemma FailureKeepsEarlierArtifacts(env: ProcessEnv, f: UploadedFile, fx: Observed, files: Storage.Files, name: string)
    requires !(fx.post.Reply? && fx.post.data.Some? && fx.write.WriteOk?)
    requires name in files && name != Storage.FileName(fx.now)
    ensures Handle(env, Some(f), fx, files).response.status == 500
    ensures Storage.Resolve(Handle(env, Some(f), fx, files).files, Storage.UrlPort, Storage.Url(name)) == Some(files[name])
  {
    Storage.ResolveUrl(Handle(env, Some(f), fx, files).files, Storage.UrlPort, name);
  }
}
