/** The world outside the decision logic: the file system, the external
    MediaInfo tool, SHA-256 and the CrowdNFO web API.  Each is an input of the
    model, a function from what is asked to what comes back, so that the
    orchestration can be stated for every possible answer. */
module Env {
  import opened Wrappers
  import opened Types

  /** One part of a multipart/form-data body: a text field, or the file. */
  datatype FormPart =
    | Field(name: string, value: string)
    | FilePart(fieldName: string, fileName: string, data: seq<Byte>)

  /** A POST of a multipart form to `<BASE_URL>/<release>/files`. */
  datatype FileUpload = FileUpload(url: string, apiKey: string, form: seq<FormPart>)

  /** A POST of a JSON file list to `<BASE_URL>/<release>/filelists`. */
  datatype FileListPost = FileListPost(url: string, apiKey: string, body: FileListRequest)

  /** What `client.Do` and reading the body give back: no response at all, or
      a status with the body text and, when reading the body broke off, why. */
  datatype HttpResponse =
    | TransportError(cause: Error)
    | Response(status: int, body: string, readError: Option<Error>)

  /** The oracles.  Names follow the Go calls they stand for. */
  datatype Env = Env(
    // package files (its bodies are not part of this model)
    getBaseOrName: string -> string,
    findBiggestFile: string -> Result<string, Error>,
    findFirstAudioFile: string -> Result<string, Error>,
    findAllVideoFiles: string -> Result<seq<VideoFile>, Error>,
    findGeneralNfo: string -> string,
    extractEpisodeInfo: (VideoFile, string, string) -> EpisodeInfo,
    findNfoFile: string -> Result<string, Error>,
    isHashOnlyFile: string -> bool,
    createFileList: (string, string) -> Result<seq<FileListEntry>, Error>,
    createEpisodeFileList: EpisodeInfo -> Result<seq<FileListEntry>, Error>,
    // package os: the size os.Stat reports, ReadFile, and WriteFile of a
    // file `name` in directory `dir`
    fileSize: string -> Result<int, Error>,
    readFile: string -> Result<seq<Byte>, Error>,
    writeFile: (string, string, seq<Byte>) -> Option<Error>,
    // calculateSHA256: the hex digest of a file, or why it could not be read
    sha256: string -> Result<string, Error>,
    // exec.LookPath succeeds, and the output of `<tool> --Output=JSON <file>`
    lookPath: string -> bool,
    runMediaInfo: (string, string) -> Result<seq<Byte>, Error>,
    // net/http: NewRequest's verdict on a URL, and the two endpoints
    badUrl: string -> Option<Error>,
    postFile: FileUpload -> HttpResponse,
    postFileList: FileListPost -> HttpResponse
  )
}
