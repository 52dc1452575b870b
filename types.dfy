/** The records shared by the packages: internal/files/types.go and
    typing/typing.go.  Go strings are `string`, Go byte slices `seq<Byte>`,
    Go errors are their message text. */
module Types {

  newtype Byte = b: int | 0 <= b < 256

  /** Message text of a Go `error` value. */
  type Error = string

  /** One video file of a season pack (files.VideoFile). */
  datatype VideoFile = VideoFile(path: string, dir: string, name: string)

  /** One row of a file list (files.FileListEntry); the size is an int64. */
  datatype FileListEntry = FileListEntry(filePath: string, fileSizeBytes: int)

  /** The JSON body posted to the file-list endpoint (files.FileListRequest). */
  datatype FileListRequest = FileListRequest(releaseName: string, category: string, entries: seq<FileListEntry>)

  /** What the episode extractor derives from one video file (files.EpisodeInfo).
      An empty releaseName marks a video file that is not a valid episode. */
  datatype EpisodeInfo = EpisodeInfo(videoFile: VideoFile, episodeNum: string, releaseName: string, nfoFile: string)

  /** typing.ProcessResult: the non-fatal warnings of a run, in order. */
  datatype ProcessResult = ProcessResult(warnings: seq<Error>)

  /** Text concatenation regrouped; used where the solver will not regroup
      on its own. */
  lemma ConcatThree(a: string, b: string, c: string)
    ensures a + (b + c) == a + b + c
  {
  }
}
