/** internal/api/api.go: what is uploaded to CrowdNFO for a release, under
    which names, in which order, and how the answers of the web API are read.
    The HTTP exchange itself is an oracle of the environment (module Env). */
module Api {
  import opened Wrappers
  import opened Types
  import opened Decimal
  import opened Env

  const BaseUrl: string := "https://crowdnfo.net/api/releases"

  /** The FileType values of the three assets. */
  const MediaInfoType: string := "MediaInfo"
  const NfoType: string := "NFO"
  const FileListType: string := "FileList"

  function FilesUrl(releaseName: string): string {
    BaseUrl + "/" + releaseName + "/files"
  }

  function FileListsUrl(releaseName: string): string {
    BaseUrl + "/" + releaseName + "/filelists"
  }

  // ---------------------------------------------------------------------------
  // File names

  /** getFileName: the name under which an asset is uploaded and archived. */
  function GetFileName(fileType: string, releaseName: string, originalFileName: string): (r: string)
    ensures r == originalFileName <== fileType == NfoType && originalFileName != ""
    ensures r == releaseName + ".json" <== fileType != NfoType || originalFileName == ""
  {
    if fileType == NfoType && originalFileName != "" then originalFileName else releaseName + ".json"
  }

  /** A MediaInfo asset is always named after the release, whatever name is passed. */
  lemma MediaInfoFileName(releaseName: string, originalFileName: string)
    ensures GetFileName(MediaInfoType, releaseName, originalFileName) == releaseName + ".json"
    ensures |GetFileName(MediaInfoType, releaseName, originalFileName)| == |releaseName| + 5
  {
  }

  /** `path` without the slashes at its end. */
  function TrimTrailingSlashes(path: string): (r: string)
    ensures |r| <= |path| && r == path[..|r|]
    ensures r == [] || r[|r| - 1] != '/'
    ensures forall i :: |r| <= i < |path| ==> path[i] == '/'
  {
    if path != [] && path[|path| - 1] == '/' then TrimTrailingSlashes(path[..|path| - 1]) else path
  }

  /** What follows the last slash of `path` (all of it when it has none). */
  function LastElement(path: string): (r: string)
    ensures |r| <= |path| && r == path[|path| - |r|..]
    ensures '/' !in r
    ensures |r| < |path| ==> path[|path| - |r| - 1] == '/'
  {
    if path == [] || path[|path| - 1] == '/' then []
    else
      var r := LastElement(path[..|path| - 1]);
      SuffixOfInit(path, |r|);
      r + [path[|path| - 1]]
  }

  lemma SuffixOfInit(path: string, n: nat)
    requires n < |path|
    ensures path[..|path| - 1][|path| - 1 - n..] + [path[|path| - 1]] == path[|path| - 1 - n..]
  {
  }

  /** Go's `filepath.Base` with the slash as separator: the last element of
      the path, "." for the empty path and "/" for a path of slashes only. */
  function Base(path: string): (r: string)
    ensures r != []
    ensures r == "/" || '/' !in r
  {
    if path == [] then "."
    else
      var trimmed := TrimTrailingSlashes(path);
      if trimmed == [] then "/" else LastElement(trimmed)
  }

  /** The base of dir/name is the name, and so is the base of the bare name. */
  lemma BaseOfName(dir: string, name: string)
    requires name != [] && '/' !in name
    ensures Base(dir + "/" + name) == name
    ensures Base(name) == name
  {
    assert forall i :: 0 <= i < |name| ==> name[i] in name;
    BaseOfSuffix(dir + "/", name);
    BaseOfSuffix([], name);
    assert [] + name == name;
  }

  lemma BaseOfSuffix(prefix: string, name: string)
    requires name != [] && forall i :: 0 <= i < |name| ==> name[i] != '/'
    requires prefix == [] || prefix[|prefix| - 1] == '/'
    ensures Base(prefix + name) == name
  {
    var s := prefix + name;
    assert s[|s| - 1] == name[|name| - 1];
    assert TrimTrailingSlashes(s) == s;
    LastElementOf(prefix, name);
  }

  lemma {:induction false} LastElementOf(prefix: string, name: string)
    requires forall i :: 0 <= i < |name| ==> name[i] != '/'
    requires prefix == [] || prefix[|prefix| - 1] == '/'
    ensures LastElement(prefix + name) == name
    decreases |name|
  {
    if name == [] {
      assert prefix + name == prefix;
    } else {
      var s := prefix + name;
      var init := name[..|name| - 1];
      assert s[|s| - 1] == name[|name| - 1];
      assert s[..|s| - 1] == prefix + init;
      LastElementOf(prefix, init);
      assert LastElement(s) == LastElement(prefix + init) + [s[|s| - 1]];
      assert init + [name[|name| - 1]] == name;
    }
  }

  /** Base is idempotent. */
  lemma BaseIdempotent(path: string)
    ensures Base(Base(path)) == Base(path)
  {
    var b := Base(path);
    if b != "/" {
      BaseOfName([], b);
    }
  }

  // ---------------------------------------------------------------------------
  // The multipart form of uploadFile

  /** A field that is written only when its value is not empty. */
  function OptionalField(name: string, value: string): seq<FormPart> {
    if value != "" then [Field(name, value)] else []
  }

  /** The text fields uploadFile writes, in order. */
  function FormFields(fileType: string, originalFileName: string, category: string, hash: string): seq<FormPart> {
    [Field("FileType", fileType)]
    + (OptionalField("OriginalFileName", originalFileName)
       + (OptionalField("Category", category) + OptionalField("FileHash", hash)))
  }

  /** The value of the first text field with this name. */
  function FieldValue(form: seq<FormPart>, name: string): (r: Option<string>)
    ensures r.Some? <==> exists i :: 0 <= i < |form| && form[i].Field? && form[i].name == name
  {
    if form == [] then None
    else if form[0].Field? && form[0].name == name then Some(form[0].value)
    else
      var r := FieldValue(form[1..], name);
      assert forall i :: 1 <= i < |form| ==> form[1..][i - 1] == form[i];
      r
  }

  /** The file name of the first file part. */
  function UploadedFileName(form: seq<FormPart>): (r: Option<string>)
    ensures r.Some? <==> exists i :: 0 <= i < |form| && form[i].FilePart?
  {
    if form == [] then None
    else if form[0].FilePart? then Some(form[0].fileName)
    else
      var r := UploadedFileName(form[1..]);
      assert forall i :: 1 <= i < |form| ==> form[1..][i - 1] == form[i];
      r
  }

  lemma FieldValueCons(f: FormPart, rest: seq<FormPart>, name: string)
    ensures FieldValue([f] + rest, name) == if f.Field? && f.name == name then Some(f.value) else FieldValue(rest, name)
  {
    assert ([f] + rest)[0] == f && ([f] + rest)[1..] == rest;
  }

  lemma FieldValueOptional(field: string, value: string, rest: seq<FormPart>, name: string)
    ensures FieldValue(OptionalField(field, value) + rest, name)
         == if field == name && value != "" then Some(value) else FieldValue(rest, name)
  {
    if value != "" {
      FieldValueCons(Field(field, value), rest, name);
    } else {
      assert OptionalField(field, value) + rest == rest;
    }
  }

  /** FileType is always sent; OriginalFileName, Category and FileHash are
      sent exactly when they are not empty, with their values; no other
      field is sent. */
  lemma FormFieldLookup(fileType: string, originalFileName: string, category: string, hash: string, name: string)
    ensures FieldValue(FormFields(fileType, originalFileName, category, hash), name) ==
      if name == "FileType" then Some(fileType)
      else if name == "OriginalFileName" && originalFileName != "" then Some(originalFileName)
      else if name == "Category" && category != "" then Some(category)
      else if name == "FileHash" && hash != "" then Some(hash)
      else None
  {
    var h := OptionalField("FileHash", hash);
    var ch := OptionalField("Category", category) + h;
    var och := OptionalField("OriginalFileName", originalFileName) + ch;
    FieldValueCons(Field("FileType", fileType), och, name);
    FieldValueOptional("OriginalFileName", originalFileName, ch, name);
    FieldValueOptional("Category", category, h, name);
    FieldValueOptional("FileHash", hash, [], name);
    assert h + [] == h;
  }

  /** The text fields come first, FileType leading, and hold no file. */
  lemma FormFieldsShape(fileType: string, originalFileName: string, category: string, hash: string)
    ensures var form := FormFields(fileType, originalFileName, category, hash);
      form[0] == Field("FileType", fileType) && UploadedFileName(form).None?
      && 1 <= |form| <= 4
  {
    var form := FormFields(fileType, originalFileName, category, hash);
    forall i | 0 <= i < |form|
      ensures form[i].Field?
    {
    }
  }

  /** The whole form: the text fields, then the file under the field "File". */
  function UploadForm(fileType: string, releaseName: string, originalFileName: string, fileData: seq<Byte>, hash: string, category: string): seq<FormPart> {
    FormFields(fileType, originalFileName, category, hash)
    + [FilePart("File", GetFileName(fileType, releaseName, originalFileName), fileData)]
  }

  /** The file part of the form is the one after the text fields, with the
      name getFileName gives. */
  lemma UploadFormFile(fileType: string, releaseName: string, originalFileName: string, fileData: seq<Byte>, hash: string, category: string)
    ensures UploadedFileName(UploadForm(fileType, releaseName, originalFileName, fileData, hash, category))
         == Some(GetFileName(fileType, releaseName, originalFileName))
  {
    var fields := FormFields(fileType, originalFileName, category, hash);
    var f := [FilePart("File", GetFileName(fileType, releaseName, originalFileName), fileData)];
    FormFieldsShape(fileType, originalFileName, category, hash);
    FileNameAfterFields(fields, f);
  }

  lemma {:induction false} FileNameAfterFields(a: seq<FormPart>, b: seq<FormPart>)
    requires UploadedFileName(a).None?
    ensures UploadedFileName(a + b) == UploadedFileName(b)
    decreases |a|
  {
    if a != [] {
      assert (a + b)[1..] == a[1..] + b;
      assert !a[0].FilePart?;
      FileNameAfterFields(a[1..], b);
    } else {
      assert a + b == b;
    }
  }

  // ---------------------------------------------------------------------------
  // uploadFile

  /** Why uploadFile failed. */
  datatype UploadError =
    | RequestNotCreated(cause: Error)           // "create HTTP request: %w"
    | RequestFailed(cause: Error)               // "HTTP request failed: %w"
    | BodyUnreadable(cause: Error)              // "failed to read response body: %w"
    | StatusRejected(status: int, body: string) // "upload failed with status %d: %s"
    | ArchiveFailed(fileType: string, cause: Error) // "failed to archive uploaded %s file: %w"

  /** The text of the Go error. */
  function UploadErrorMessage(e: UploadError): string {
    match e
    case RequestNotCreated(c) => "create HTTP request: " + c
    case RequestFailed(c) => "HTTP request failed: " + c
    case BodyUnreadable(c) => "failed to read response body: " + c
    case StatusRejected(s, b) => "upload failed with status " + IntToDecimal(s) + ": " + b
    case ArchiveFailed(t, c) => "failed to archive uploaded " + t + " file: " + c
  }

  /** Where the archive copy is written: `filepath.Join(dir, name)`. */
  datatype ArchiveTarget = ArchiveTarget(dir: string, name: string)

  /** What one uploadFile call did: the request it sent (if it got that far),
      the archive copy it wrote (if it got that far), and its error. */
  datatype UploadResult = UploadResult(posted: Option<FileUpload>, archived: Option<ArchiveTarget>, err: Option<UploadError>)

  predicate SuccessStatus(status: int) {
    status == 200 || status == 201
  }

  /** The outcome of uploadFile, given the environment's answers. */
  function UploadFileOutcome(env: Env, apiKey: string, releaseName: string, fileType: string, originalFileName: string,
                             fileData: seq<Byte>, hash: string, category: string, archiveDir: string): (r: UploadResult)
    ensures r.posted.None? <==> env.badUrl(FilesUrl(releaseName)).Some?
    ensures r.posted.Some? ==>
      r.posted.value == FileUpload(FilesUrl(releaseName), apiKey, UploadForm(fileType, releaseName, originalFileName, fileData, hash, category))
    ensures r.archived.Some? ==>
      r.posted.Some? && r.archived.value == ArchiveTarget(archiveDir, GetFileName(fileType, releaseName, originalFileName))
    ensures r.err.None? ==> r.archived.Some?
  {
    var url := FilesUrl(releaseName);
    var fileName := GetFileName(fileType, releaseName, originalFileName);
    var upload := FileUpload(url, apiKey, UploadForm(fileType, releaseName, originalFileName, fileData, hash, category));
    if env.badUrl(url).Some? then UploadResult(None, None, Some(RequestNotCreated(env.badUrl(url).value)))
    else
      match env.postFile(upload)
      case TransportError(e) => UploadResult(Some(upload), None, Some(RequestFailed(e)))
      case Response(status, body, readError) =>
        if readError.Some? then UploadResult(Some(upload), None, Some(BodyUnreadable(readError.value)))
        else if !SuccessStatus(status) then UploadResult(Some(upload), None, Some(StatusRejected(status, body)))
        else
          var written := env.writeFile(archiveDir, fileName, fileData);
          UploadResult(Some(upload), Some(ArchiveTarget(archiveDir, fileName)),
                       if written.Some? then Some(ArchiveFailed(fileType, written.value)) else None)
  }

  /** uploadFile: writes the form fields one by one, then the file, and sends it. */
  method UploadFile(env: Env, apiKey: string, releaseName: string, fileType: string, originalFileName: string,
                    fileData: seq<Byte>, hash: string, category: string, archiveDir: string) returns (r: UploadResult)
    ensures r == UploadFileOutcome(env, apiKey, releaseName, fileType, originalFileName, fileData, hash, category, archiveDir)
  {
    var url := FilesUrl(releaseName);
    var form := [Field("FileType", fileType)];
    if originalFileName != "" {
      form := form + [Field("OriginalFileName", originalFileName)];
    }
    if category != "" {
      form := form + [Field("Category", category)];
    }
    if hash != "" {
      form := form + [Field("FileHash", hash)];
    }
    assert form == FormFields(fileType, originalFileName, category, hash);
    var fileName := GetFileName(fileType, releaseName, originalFileName);
    form := form + [FilePart("File", fileName, fileData)];
    var upload := FileUpload(url, apiKey, form);
    var urlError := env.badUrl(url);
    if urlError.Some? {
      return UploadResult(None, None, Some(RequestNotCreated(urlError.value)));
    }
    var response := env.postFile(upload);
    if response.TransportError? {
      return UploadResult(Some(upload), None, Some(RequestFailed(response.cause)));
    }
    if response.readError.Some? {
      return UploadResult(Some(upload), None, Some(BodyUnreadable(response.readError.value)));
    }
    if response.status != 200 && response.status != 201 {
      return UploadResult(Some(upload), None, Some(StatusRejected(response.status, response.body)));
    }
    var written := env.writeFile(archiveDir, fileName, fileData);
    if written.Some? {
      return UploadResult(Some(upload), Some(ArchiveTarget(archiveDir, fileName)), Some(ArchiveFailed(fileType, written.value)));
    }
    r := UploadResult(Some(upload), Some(ArchiveTarget(archiveDir, fileName)), None);
  }

  /** An upload succeeds exactly when the request is sent, the body is read,
      the status is 200 or 201 and the archive copy is written; the archive
      copy is written only after such a status, and then under the name the
      form gave the file, with the uploaded bytes. */
  lemma UploadFileSuccess(env: Env, apiKey: string, releaseName: string, fileType: string, originalFileName: string,
                          fileData: seq<Byte>, hash: string, category: string, archiveDir: string)
    ensures var r := UploadFileOutcome(env, apiKey, releaseName, fileType, originalFileName, fileData, hash, category, archiveDir);
      var name := GetFileName(fileType, releaseName, originalFileName);
      (r.archived.Some? <==>
         r.posted.Some? && env.postFile(r.posted.value).Response?
         && env.postFile(r.posted.value).readError.None? && SuccessStatus(env.postFile(r.posted.value).status))
      && (r.err.None? <==> r.archived.Some? && env.writeFile(archiveDir, name, fileData).None?)
      && (r.archived.Some? ==> r.archived.value == ArchiveTarget(archiveDir, name)
                               && UploadedFileName(r.posted.value.form) == Some(r.archived.value.name))
      && (r.posted.None? <==> env.badUrl(FilesUrl(releaseName)).Some?)
  {
    UploadFormFile(fileType, releaseName, originalFileName, fileData, hash, category);
  }

  /** A status other than 200 and 201 is an error that carries the status and
      the body, and nothing is archived. */
  lemma UploadFileRejected(env: Env, apiKey: string, releaseName: string, fileType: string, originalFileName: string,
                           fileData: seq<Byte>, hash: string, category: string, archiveDir: string, status: int, body: string)
    requires env.badUrl(FilesUrl(releaseName)).None?
    requires env.postFile(FileUpload(FilesUrl(releaseName), apiKey, UploadForm(fileType, releaseName, originalFileName, fileData, hash, category)))
          == Response(status, body, None)
    requires !SuccessStatus(status)
    ensures var r := UploadFileOutcome(env, apiKey, releaseName, fileType, originalFileName, fileData, hash, category, archiveDir);
      r.err == Some(StatusRejected(status, body)) && r.archived.None?
      && UploadErrorMessage(r.err.value) == "upload failed with status " + IntToDecimal(status) + ": " + body
  {
  }

  // ---------------------------------------------------------------------------
  // uploadFileList

  /** Why uploadFileList failed. */
  datatype ListError =
    | ListRequestNotCreated(cause: Error)            // "create HTTP request: %w"
    | ListRequestFailed(cause: Error)                // "HTTP request failed: %w"
    | Unauthorized                                   // status 401
    | Rejected(body: string)                         // status 400: the body is the message
    | ListStatusRejected(status: int, body: string)  // "file list upload failed with status %d: %s"

  function ListErrorMessage(e: ListError): string {
    match e
    case ListRequestNotCreated(c) => "create HTTP request: " + c
    case ListRequestFailed(c) => "HTTP request failed: " + c
    case Unauthorized => "unauthorized: please check your API key in config.json"
    case Rejected(b) => b
    case ListStatusRejected(s, b) => "file list upload failed with status " + IntToDecimal(s) + ": " + b
  }

  datatype ListResult = ListResult(posted: Option<FileListPost>, err: Option<ListError>)

  /** The error a file-list response with this status and body means. */
  function ListStatusError(status: int, body: string): (r: Option<ListError>)
    ensures r.None? <==> SuccessStatus(status)
    ensures status == 401 ==> r == Some(Unauthorized)
    ensures status == 400 ==> r == Some(Rejected(body)) && ListErrorMessage(r.value) == body
    ensures !SuccessStatus(status) && status != 400 && status != 401 ==>
      r == Some(ListStatusRejected(status, body))
      && ListErrorMessage(r.value) == "file list upload failed with status " + IntToDecimal(status) + ": " + body
    ensures r.Some? && r.value.ListStatusRejected? ==> r.value.status !in {200, 201, 400, 401} && r.value.body == body
  {
    if SuccessStatus(status) then None
    else if status == 401 then Some(Unauthorized)
    else if status == 400 then Some(Rejected(body))
    else Some(ListStatusRejected(status, body))
  }

  /** The outcome of uploadFileList, given the environment's answers.  On an
      error status the body is read as far as it can be; a read error is ignored. */
  function UploadFileListOutcome(env: Env, apiKey: string, request: FileListRequest): (r: ListResult)
    ensures r.posted.Some? ==> r.posted.value == FileListPost(FileListsUrl(request.releaseName), apiKey, request)
    ensures r.posted.None? <==> env.badUrl(FileListsUrl(request.releaseName)).Some?
    ensures r.posted.None? ==> r.err == Some(ListRequestNotCreated(env.badUrl(FileListsUrl(request.releaseName)).value))
    ensures r.posted.Some? && env.postFileList(r.posted.value).TransportError? ==>
      r.err == Some(ListRequestFailed(env.postFileList(r.posted.value).cause))
    ensures r.posted.Some? && env.postFileList(r.posted.value).Response? ==>
      r.err == ListStatusError(env.postFileList(r.posted.value).status, env.postFileList(r.posted.value).body)
    ensures r.err.None? <==>
      r.posted.Some? && env.postFileList(r.posted.value).Response? && SuccessStatus(env.postFileList(r.posted.value).status)
  {
    var url := FileListsUrl(request.releaseName);
    if env.badUrl(url).Some? then ListResult(None, Some(ListRequestNotCreated(env.badUrl(url).value)))
    else
      var post := FileListPost(url, apiKey, request);
      match env.postFileList(post)
      case TransportError(e) => ListResult(Some(post), Some(ListRequestFailed(e)))
      case Response(status, body, _) => ListResult(Some(post), ListStatusError(status, body))
  }

  // ---------------------------------------------------------------------------
  // uploadAssets and the two entry points

  datatype AssetKind = MediaInfoAsset | NfoAsset | FileListAsset

  /** One step of uploadAssets: an upload of a file, an NFO that could not be
      read (logged, nothing sent), or an upload of the file list. */
  datatype Attempt =
    | FileAttempt(kind: AssetKind, result: UploadResult)
    | NfoUnreadable(path: string, cause: Error)
    | ListAttempt(listResult: ListResult)

  /** The arguments of uploadAssets. */
  datatype UploadJob = UploadJob(apiKey: string, releaseName: string, category: string, hash: string, archiveDir: string,
                                 mediaInfoJson: seq<Byte>, nfoFile: string, entries: seq<FileListEntry>)

  function MediaInfoStep(env: Env, job: UploadJob): seq<Attempt> {
    if |job.mediaInfoJson| > 0 then
      [FileAttempt(MediaInfoAsset, UploadFileOutcome(env, job.apiKey, job.releaseName, MediaInfoType, "", job.mediaInfoJson,
                                                     job.hash, job.category, job.archiveDir))]
    else []
  }

  function NfoStep(env: Env, job: UploadJob): seq<Attempt> {
    if job.nfoFile == "" then []
    else
      match env.readFile(job.nfoFile)
      case Err(e) => [NfoUnreadable(job.nfoFile, e)]
      case Ok(data) =>
        [FileAttempt(NfoAsset, UploadFileOutcome(env, job.apiKey, job.releaseName, NfoType, Base(job.nfoFile), data,
                                                 job.hash, job.category, job.archiveDir))]
  }

  function FileListStep(env: Env, job: UploadJob): seq<Attempt> {
    if |job.entries| > 0 then
      [ListAttempt(UploadFileListOutcome(env, job.apiKey, FileListRequest(job.releaseName, job.category, job.entries)))]
    else []
  }

  /** Everything uploadAssets does, in order. */
  function AssetAttempts(env: Env, job: UploadJob): (r: seq<Attempt>)
    ensures |r| == (if |job.mediaInfoJson| > 0 then 1 else 0) + (if job.nfoFile != "" then 1 else 0)
                   + (if |job.entries| > 0 then 1 else 0)
    ensures forall a :: a in r && a.FileAttempt? && a.result.posted.Some? ==>
      a.result.posted.value.url == FilesUrl(job.releaseName) && a.result.posted.value.apiKey == job.apiKey
    ensures forall a :: a in r && a.ListAttempt? && a.listResult.posted.Some? ==>
      a.listResult.posted.value.url == FileListsUrl(job.releaseName) && a.listResult.posted.value.apiKey == job.apiKey
  {
    MediaInfoStep(env, job) + NfoStep(env, job) + FileListStep(env, job)
  }

  /** uploadAssets: MediaInfo, then the NFO, then the file list; a failure is
      logged and the next asset is tried all the same. */
  method UploadAssets(env: Env, job: UploadJob) returns (attempts: seq<Attempt>)
    ensures attempts == AssetAttempts(env, job)
  {
    attempts := [];
    if |job.mediaInfoJson| > 0 {
      var r := UploadFile(env, job.apiKey, job.releaseName, MediaInfoType, "", job.mediaInfoJson, job.hash, job.category, job.archiveDir);
      attempts := attempts + [FileAttempt(MediaInfoAsset, r)];
    }
    if job.nfoFile != "" {
      var read := env.readFile(job.nfoFile);
      if read.Err? {
        attempts := attempts + [NfoUnreadable(job.nfoFile, read.error)];
      } else {
        var nfoFileName := Base(job.nfoFile);
        var r := UploadFile(env, job.apiKey, job.releaseName, NfoType, nfoFileName, read.value, job.hash, job.category, job.archiveDir);
        attempts := attempts + [FileAttempt(NfoAsset, r)];
      }
    }
    if |job.entries| > 0 {
      var request := FileListRequest(job.releaseName, job.category, job.entries);
      var r := UploadFileListOutcome(env, job.apiKey, request);
      attempts := attempts + [ListAttempt(r)];
    }
  }

  /** The assets a sequence of steps tried to upload, in order. */
  function Kinds(attempts: seq<Attempt>): seq<AssetKind> {
    if attempts == [] then []
    else
      var last := attempts[|attempts| - 1];
      Kinds(attempts[..|attempts| - 1])
      + (match last
         case FileAttempt(k, _) => [k]
         case NfoUnreadable(_, _) => []
         case ListAttempt(_) => [FileListAsset])
  }

  lemma {:induction false} KindsAppend(a: seq<Attempt>, b: seq<Attempt>)
    ensures Kinds(a + b) == Kinds(a) + Kinds(b)
    decreases |b|
  {
    if b == [] {
      assert a + b == a;
    } else {
      var init := b[..|b| - 1];
      assert (a + b)[..|a + b| - 1] == a + init;
      KindsAppend(a, init);
    }
  }

  /** uploadAssets tries MediaInfo when there is MediaInfo JSON, then the NFO
      when one is named and can be read, then the file list when it has
      entries.  What the server answers to one upload never changes which of
      the later ones are tried. */
  lemma AttemptOrder(env: Env, job: UploadJob)
    ensures Kinds(AssetAttempts(env, job)) ==
      (if |job.mediaInfoJson| > 0 then [MediaInfoAsset] else [])
      + (if job.nfoFile != "" && env.readFile(job.nfoFile).Ok? then [NfoAsset] else [])
      + (if |job.entries| > 0 then [FileListAsset] else [])
  {
    KindsAppend(MediaInfoStep(env, job), NfoStep(env, job));
    KindsAppend(MediaInfoStep(env, job) + NfoStep(env, job), FileListStep(env, job));
    assert Kinds(MediaInfoStep(env, job)) == (if |job.mediaInfoJson| > 0 then [MediaInfoAsset] else []) by {
      if |job.mediaInfoJson| > 0 { assert MediaInfoStep(env, job)[..0] == []; }
    }
    assert Kinds(NfoStep(env, job)) == (if job.nfoFile != "" && env.readFile(job.nfoFile).Ok? then [NfoAsset] else []) by {
      if job.nfoFile != "" { assert NfoStep(env, job)[..0] == []; }
    }
    assert Kinds(FileListStep(env, job)) == (if |job.entries| > 0 then [FileListAsset] else []) by {
      if |job.entries| > 0 { assert FileListStep(env, job)[..0] == []; }
    }
  }

  /** The MediaInfo JSON goes up as "<release>.json" ... */
  lemma MediaInfoAssetName(env: Env, job: UploadJob)
    requires |job.mediaInfoJson| > 0
    ensures var r := MediaInfoStep(env, job)[0].result;
      r.posted.Some? ==> UploadedFileName(r.posted.value.form) == Some(job.releaseName + ".json")
  {
    UploadFormFile(MediaInfoType, job.releaseName, "", job.mediaInfoJson, job.hash, job.category);
  }

  /** ... and the NFO under the base name of its path. */
  lemma NfoAssetName(env: Env, job: UploadJob)
    requires job.nfoFile != "" && env.readFile(job.nfoFile).Ok?
    ensures var r := NfoStep(env, job)[0].result;
      r.posted.Some? ==> UploadedFileName(r.posted.value.form) == Some(Base(job.nfoFile))
  {
    UploadFormFile(NfoType, job.releaseName, Base(job.nfoFile), env.readFile(job.nfoFile).value, job.hash, job.category);
  }

  /** The category a step sent, if it sent one. */
  predicate SendsCategory(a: Attempt, category: string) {
    match a
    case FileAttempt(_, r) => r.posted.Some? ==> FieldValue(r.posted.value.form, "Category") == Some(category)
    case NfoUnreadable(_, _) => true
    case ListAttempt(r) => r.posted.Some? ==> r.posted.value.body.category == category
  }

  lemma UploadSendsCategory(fileType: string, releaseName: string, originalFileName: string, fileData: seq<Byte>, hash: string, category: string)
    requires category != ""
    ensures FieldValue(UploadForm(fileType, releaseName, originalFileName, fileData, hash, category), "Category") == Some(category)
  {
    var fields := FormFields(fileType, originalFileName, category, hash);
    FormFieldLookup(fileType, originalFileName, category, hash, "Category");
    FieldValueFirst(fields, [FilePart("File", GetFileName(fileType, releaseName, originalFileName), fileData)], "Category");
  }

  lemma {:induction false} FieldValueFirst(a: seq<FormPart>, b: seq<FormPart>, name: string)
    requires FieldValue(a, name).Some?
    ensures FieldValue(a + b, name) == FieldValue(a, name)
    decreases |a|
  {
    assert (a + b)[0] == a[0];
    if !(a[0].Field? && a[0].name == name) {
      assert (a + b)[1..] == a[1..] + b;
      FieldValueFirst(a[1..], b, name);
    }
  }

  lemma MediaInfoStepSendsCategory(env: Env, job: UploadJob)
    requires job.category != ""
    ensures forall a :: a in MediaInfoStep(env, job) ==> SendsCategory(a, job.category)
  {
    UploadSendsCategory(MediaInfoType, job.releaseName, "", job.mediaInfoJson, job.hash, job.category);
  }

  lemma NfoStepSendsCategory(env: Env, job: UploadJob)
    requires job.category != ""
    ensures forall a :: a in NfoStep(env, job) ==> SendsCategory(a, job.category)
  {
    if job.nfoFile != "" && env.readFile(job.nfoFile).Ok? {
      UploadSendsCategory(NfoType, job.releaseName, Base(job.nfoFile), env.readFile(job.nfoFile).value, job.hash, job.category);
    }
  }

  /** Every request uploadAssets sends carries the job's category (when there is one). */
  lemma AssetsSendCategory(env: Env, job: UploadJob)
    requires job.category != ""
    ensures forall a :: a in AssetAttempts(env, job) ==> SendsCategory(a, job.category)
  {
    MediaInfoStepSendsCategory(env, job);
    NfoStepSendsCategory(env, job);
    assert forall a :: a in FileListStep(env, job) ==> SendsCategory(a, job.category);
  }

  /** The entries a file list holds: none when it could not be built. */
  function EntriesOrNone(list: Result<seq<FileListEntry>, Error>): seq<FileListEntry> {
    if list.Ok? then list.value else []
  }

  /** UploadToCrowdNFO: builds the file list of the release (an empty one
      when that fails), uploads the assets, and reports no error whatever
      happened to them. */
  method UploadToCrowdNfo(env: Env, apiKey: string, releaseName: string, category: string, hash: string, releasePath: string,
                          mediaInfoJson: seq<Byte>, nfoFile: string, archiveDir: string)
    returns (attempts: seq<Attempt>, err: Option<Error>)
    ensures err.None?
    ensures attempts == AssetAttempts(env, UploadJob(apiKey, releaseName, category, hash, archiveDir, mediaInfoJson, nfoFile,
                                                     EntriesOrNone(env.createFileList(releasePath, releaseName))))
  {
    var entries: seq<FileListEntry> := [];
    var list := env.createFileList(releasePath, releaseName);
    if list.Ok? {
      entries := list.value;
    }
    attempts := UploadAssets(env, UploadJob(apiKey, releaseName, category, hash, archiveDir, mediaInfoJson, nfoFile, entries));
    err := None;
  }

  /** The job UploadEpisodeToCrowdNFO hands to uploadAssets: the episode's own
      release name, NFO and file list. */
  function EpisodeJob(env: Env, apiKey: string, episode: EpisodeInfo, category: string, hash: string,
                      mediaInfoJson: seq<Byte>, archiveDir: string): UploadJob
  {
    UploadJob(apiKey, episode.releaseName, category, hash, archiveDir, mediaInfoJson, episode.nfoFile,
              EntriesOrNone(env.createEpisodeFileList(episode)))
  }

  /** UploadEpisodeToCrowdNFO. */
  method UploadEpisodeToCrowdNfo(env: Env, apiKey: string, episode: EpisodeInfo, category: string, hash: string,
                                 mediaInfoJson: seq<Byte>, archiveDir: string)
    returns (attempts: seq<Attempt>)
    ensures attempts == AssetAttempts(env, EpisodeJob(env, apiKey, episode, category, hash, mediaInfoJson, archiveDir))
  {
    var entries: seq<FileListEntry> := [];
    var list := env.createEpisodeFileList(episode);
    if list.Ok? {
      entries := list.value;
    }
    attempts := UploadAssets(env, UploadJob(apiKey, episode.releaseName, category, hash, archiveDir, mediaInfoJson, episode.nfoFile, entries));
  }

  /** A file list that cannot be built is left out; the other assets still go up. */
  lemma FileListFailureSkipsList(env: Env, apiKey: string, releaseName: string, category: string, hash: string,
                                 releasePath: string, mediaInfoJson: seq<Byte>, nfoFile: string, archiveDir: string)
    requires env.createFileList(releasePath, releaseName).Err?
    ensures var job := UploadJob(apiKey, releaseName, category, hash, archiveDir, mediaInfoJson, nfoFile,
                                 EntriesOrNone(env.createFileList(releasePath, releaseName)));
      FileListAsset !in Kinds(AssetAttempts(env, job))
      && (|mediaInfoJson| > 0 ==> MediaInfoAsset in Kinds(AssetAttempts(env, job)))
  {
    var job := UploadJob(apiKey, releaseName, category, hash, archiveDir, mediaInfoJson, nfoFile, []);
    AttemptOrder(env, job);
  }
}
