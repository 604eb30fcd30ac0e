/**
 * The artifact store (backend/src/utils/storage.js): the uploads directory,
 * the generated file name, the public URL and the write.
 */
module Storage {
  import opened Base
  import Decimal
  import opened Effects

  type Files = map<string, seq<byte>>

  const FilePrefix := "processed-"
  const FileSuffix := ".png"
  /** Host and port are fixed in the template; the server's PORT setting plays no part. */
  const UrlPrefix := "http://localhost:5000/uploads/"
  const FailedToSave := "Failed to save processed image"

  /** `processed-${Date.now()}.png` */
  function FileName(timestamp: nat): (name: string)
    ensures ParseFileName(name) == Some(timestamp)
  {
    var digits := Decimal.FromNat(timestamp);
    var name := FilePrefix + digits + FileSuffix;
    assert name[..|FilePrefix|] == FilePrefix;
    assert name[|name| - |FileSuffix|..] == FileSuffix;
    assert name[|FilePrefix|..|name| - |FileSuffix|] == digits;
    Decimal.RoundTrip(timestamp, digits);
    name
  }

  /** The timestamp a generated file name was made from, if it is one. */
  function ParseFileName(name: string): Option<nat> {
    if |name| >= |FilePrefix| + |FileSuffix|
       && name[..|FilePrefix|] == FilePrefix
       && name[|name| - |FileSuffix|..] == FileSuffix
    then Decimal.Parse(name[|FilePrefix|..|name| - |FileSuffix|])
    else None
  }

  /** Every name that parses is the generated name of its timestamp. */
  lemma ParseFileNameExact(name: string, timestamp: nat)
    requires ParseFileName(name) == Some(timestamp)
    ensures FileName(timestamp) == name
  {
    var mid := name[|FilePrefix|..|name| - |FileSuffix|];
    Decimal.RoundTrip(timestamp, mid);
    assert name == name[..|FilePrefix|] + mid + name[|name| - |FileSuffix|..];
  }

  /** Equal timestamps, and only equal timestamps, give the same file name. */
  lemma FileNameInjective(a: nat, b: nat)
    ensures FileName(a) == FileName(b) <==> a == b
  {
  }

  /** The port written into every returned URL, whatever port the server listens on. */
  const UrlPort := 5000

  /** `http://localhost:5000/uploads/${fileName}` */
  function Url(fileName: string): (url: string)
    ensures |url| == |UrlPrefix| + |fileName|
    ensures url[..|UrlPrefix|] == UrlPrefix && url[|UrlPrefix|..] == fileName
  {
    UrlPrefix + fileName
  }

  /** Where a server listening on `port` serves its static `/uploads` route. */
  function ServedPrefix(port: nat): string {
    "http://localhost:" + Decimal.FromNat(port) + "/uploads/"
  }

  /**
   * What fetching `url` from the server, listening on `port`, yields through
   * its static `/uploads` route: the file under the path after the prefix, if
   * there is one. `files` is the directory that route serves; it is the
   * store's directory when the server was started from `backend/`.
   */
  function Resolve(files: Files, port: nat, url: string): Option<seq<byte>> {
    var prefix := ServedPrefix(port);
    if |url| >= |prefix| && url[..|prefix|] == prefix && url[|prefix|..] in files
    then Some(files[url[|prefix|..]])
    else None
  }

  /** The fixed URL prefix is the one a server on port 5000 serves. */
  lemma ServedPrefixOfUrlPort()
    ensures ServedPrefix(UrlPort) == UrlPrefix
  {
  }

  /** Only a server on port 5000 serves a prefix of the returned URLs. */
  lemma OnlyUrlPortServes(port: nat, fileName: string)
    requires |Url(fileName)| >= |ServedPrefix(port)|
    requires Url(fileName)[..|ServedPrefix(port)|] == ServedPrefix(port)
    ensures port == UrlPort
  {
    var d := Decimal.FromNat(port);
    var url := Url(fileName);
    var sp := ServedPrefix(port);
    assert sp == "http://localhost:" + d + "/uploads/";
    // the served prefix has the digits of `port` after the 17-character host, then a slash
    assert sp[17 + |d|] == '/' && url[17 + |d|] == url[..|sp|][17 + |d|];
    // the URL has the digits 5000 there, then a slash
    assert url[17] == UrlPrefix[17] == '5' && url[18] == UrlPrefix[18] == '0';
    assert url[19] == UrlPrefix[19] == '0' && url[20] == UrlPrefix[20] == '0';
    assert url[21] == UrlPrefix[21] == '/';
    assert |d| == 4;
    assert d == sp[17..21] == url[17..21] == "5000";
    ServedPrefixOfUrlPort();
    Decimal.FromNatInjective(port, UrlPort);
  }

  /**
   * A returned URL addresses precisely the entry under its file name, and
   * only on a server listening on port 5000.
   */
  lemma ResolveUrl(files: Files, port: nat, fileName: string)
    ensures Resolve(files, port, Url(fileName)) ==
      if port == UrlPort && fileName in files then Some(files[fileName]) else None
  {
    ServedPrefixOfUrlPort();
    var prefix := ServedPrefix(port);
    if |Url(fileName)| >= |prefix| && Url(fileName)[..|prefix|] == prefix {
      OnlyUrlPortServes(port, fileName);
    }
  }

  /** What one call of `uploadToStorage` returns, and the directory after it. */
  datatype StoreRun = StoreRun(result: Result<string, string>, files: Files)

  /** `uploadToStorage(buffer)` with the clock reading `now` and the write settling as `write`. */
  function Store(files: Files, buffer: seq<byte>, now: nat, write: WriteOutcome): (run: StoreRun)
    ensures run.result.Success? <==> write.WriteOk?
    ensures run.result.Success? ==>
      |run.result.value| > |UrlPrefix| && run.result.value[..|UrlPrefix|] == UrlPrefix &&
      ParseFileName(run.result.value[|UrlPrefix|..]) == Some(now) &&
      Resolve(run.files, UrlPort, run.result.value) == Some(buffer)
    ensures run.result.Failure? ==> run.result.error == FailedToSave
    ensures run.files.Keys <= files.Keys + {FileName(now)}
    ensures forall name :: name in files && name != FileName(now) ==> name in run.files && run.files[name] == files[name]
  {
    var fileName := FileName(now);
    match write
    case WriteOk =>
      ResolveUrl(files[fileName := buffer], UrlPort, fileName);
      StoreRun(Success(Url(fileName)), files[fileName := buffer])
    case WriteFailed(_, residue) =>
      StoreRun(Failure(FailedToSave), if residue.Some? then files[fileName := residue.value] else files)
  }

  /**
   * The uploads directory: whether it exists, and the files in it. The route
   * `/uploads` serves it; `Resolve` is that read path.
   */
  class UploadDir {
    var present: bool
    var files: Files

    /** A directory that does not exist holds no files. */
    ghost predicate Valid()
      reads this
    {
      !present ==> files == map[]
    }

    /** Loading storage.js: the directory as found on disk, then the module-level initialisation. */
    constructor Load(found: bool, contents: Files)
      requires found || contents == map[]
      ensures Valid() && present && files == contents
    {
      present, files := found, contents;
      new;
      EnsureDir();
    }

    /** `if (!fs.existsSync(uploadDir)) fs.mkdirSync(uploadDir, { recursive: true })` */
    method EnsureDir()
      requires Valid()
      modifies this
      ensures Valid() && present && files == old(files)
      ensures old(present) ==> unchanged(this)
    {
      if !present {
        present := true;
      }
    }

    /**
     * `uploadToStorage(imageBuffer)`. The directory exists: the module's
     * initialisation ran before any caller could import the function.
     */
    method UploadToStorage(imageBuffer: seq<byte>, now: nat, write: WriteOutcome) returns (r: Result<string, string>)
      requires Valid() && present
      modifies this
      ensures Valid() && present
      ensures StoreRun(r, files) == Store(old(files), imageBuffer, now, write)
    {
      var fileName := FileName(now);
      match write
      case WriteOk =>
        files := files[fileName := imageBuffer];
        r := Success(Url(fileName));
      case WriteFailed(_, residue) =>
        if residue.Some? {
          files := files[fileName := residue.value];
        }
        r := Failure(FailedToSave);
    }
  }
}
