# crowdnfo-go in Dafny

A model of the upload pipeline of crowdnfo-go. This Go library takes a scene
release from disk, decides its category, chooses between single-release mode
and season-pack mode, hashes the media file when the size policy allows it,
produces MediaInfo JSON, and uploads three things to the CrowdNFO web API:
the MediaInfo JSON, the NFO file and the release's file list.

The model uses the Go program's own vocabulary. `ProcessRelease` and
`ProcessSeasonPack` are methods with loops. They are proved equal to
functions of the options and of the environment's answers, and the
properties of the pipeline are proved about those functions.

The world outside the decision logic is a record of oracle functions
(`Env.Env`):
- the file system;
- the `mediainfo` executable;
- SHA-256;
- the two HTTP endpoints.

Every property therefore holds for every possible answer of the disk, the
tool and the server.

Modules, one per Go package or concern:

| module | models |
|---|---|
| `Wrappers` | nil references and `(value, error)` pairs as `Option` and `Result` |
| `Types` | records of `internal/files/types.go` and `typing/typing.go` |
| `Patterns` | the regular expressions used: an alternative is a sequence of character classes with repetition counts; `(?i)` is ASCII lower-casing; `\b` is an ASCII word boundary; `MatchString` means some alternative occurs between two boundaries |
| `Decimal` | `%d` printing, `strconv.Atoi` and 64-bit `int` arithmetic |
| `Helper` | `internal/helper.go`: season-pack detection and result merging |
| `MediaInfo` | `internal/mediainfo/mediainfo.go`: version parsing, version check and JSON generation |
| `Env` | the oracles |
| `Api` | `internal/api/api.go`: file names, multipart forms, upload outcomes, asset order |
| `Category` | the category table and category detection of `crowdnfo.go` |
| `Crowdnfo` | the hash policy, MediaInfo availability, the season-pack loop and `ProcessRelease` |

## Model

| member | source | states |
|---|---|---|
| `Decimal.NatToDecimal` | internal/api/api.go:140 | `%d` of a natural number is a non-empty digit string with no leading zero |
| `Decimal.IntToDecimal` | internal/api/api.go:140 | `%d` of an integer starts with '-' exactly when the integer is negative |
| `Decimal.ValueOfNatToDecimal` | internal/api/api.go:140 | reading back the digits `%d` printed gives the same number |
| `Decimal.NatToDecimalOfValue` | internal/api/api.go:140 | printing the value of a digit string without leading zeros gives that string back (the inverse direction) |
| `Decimal.ValuePositive` | internal/api/api.go:140 | a digit string not starting with 0 denotes at least 1, and at least 10 when it has two digits or more |
| `Decimal.Int64` | internal/mediainfo/mediainfo.go:80 | Go's `int` arithmetic: the result is in the 64-bit range, congruent to the exact value modulo 2^64, and equal to it when it fits |
| `Decimal.Atoi` | internal/mediainfo/mediainfo.go:69-77 | `strconv.Atoi` of a digit string succeeds exactly when it is non-empty and its value fits in 64 bits, and then returns that value |
| `Patterns.LowerIdempotent` | crowdnfo.go:35-46 | ASCII lower-casing twice is lower-casing once |
| `Patterns.OccursIgnoresCase` | crowdnfo.go:35-46 | under `(?i)`, a name and its lower-cased form contain the same alternatives |
| `Patterns.MatchFour` | internal/helper.go:13-14 | a four-piece alternative matches the concatenation of four parts that each piece accepts |
| `Patterns.SplitFour` | internal/helper.go:13-14 | the converse: every match of a four-piece alternative splits into four such parts |
| `Patterns.LitMatchesItself` | crowdnfo.go:35-46 | every literal word of the table matches itself |
| `Patterns.OccursAt` | crowdnfo.go:188-199 | a match of a slice that starts and ends at word boundaries is an occurrence in the name |
| `Patterns.NoAdjacentFromSound` | crowdnfo.go:188-199 | when no position holds a character of one class followed by one of another, no such pair exists from that position on |
| `Patterns.AbsentByAdjacentPair` | crowdnfo.go:188-199 | an alternative requiring two adjacent classes that never meet in the name cannot occur in it |
| `Patterns.NoneFromSound` | crowdnfo.go:188-199 | when the scan finds no character of a class from a position on, the lower-cased name holds none there |
| `Patterns.PieceConsumes` | crowdnfo.go:188-199 | every match of an alternative holds a character of each piece that must consume one |
| `Patterns.AbsentByClass` | crowdnfo.go:188-199 | an alternative with a required character class that the lower-cased name lacks cannot occur in it |
| `Helper.IsSeasonPack` | internal/helper.go:11-27 | every season pack carries a season marker; a name with an episode marker and no year-season marker is not a season pack |
| `Helper.IsSeasonPackFallback` | internal/helper.go:30-38 | the directory fallback says season pack exactly when the scan succeeded and found at least three video files |
| `Helper.IsoYearShape` | internal/helper.go:21 | a match of the year-season marker is "s20" followed by two digits |
| `Helper.SeasonShape` | internal/helper.go:13 | "s" followed by two to four digits is a season marker |
| `Helper.IsoYearIsSeasonMarker` | internal/helper.go:13-21 | every year-season marker in a name is also a season marker |
| `Helper.SeasonPackCharacterization` | internal/helper.go:11-27 | a name is a season pack exactly when it has a season marker and either no episode marker or a year-season marker; every season pack has a season marker |
| `Helper.IsoYearOverridesEpisode` | internal/helper.go:20-24 | a year-season marker makes a name a season pack even when it has an episode marker |
| `Helper.SeasonPackIgnoresCase` | internal/helper.go:11-27 | detection gives the same answer for a name and its lower-cased form |
| `Helper.SeasonIn` | internal/helper.go:13 | a bounded "s" plus two to four digits anywhere in a name is found |
| `Helper.IsoYearIn` | internal/helper.go:21 | a bounded "s20" plus two digits anywhere in a name is found |
| `Helper.EpisodeShape` | internal/helper.go:14 | "s", two digits, "e", two digits is an episode marker |
| `Helper.IsoYearWord` | internal/helper.go:21 | "s20" followed by two digits matches the year-season marker |
| `Helper.CompleteSeasonIsPack` | internal/helper.go:16 | "Show.S02.COMPLETE" is a season pack |
| `Helper.SingleEpisodeIsNotPack` | internal/helper.go:16 | "Show.S02E05" is not a season pack |
| `Helper.YearSeasonIsPack` | internal/helper.go:20-24 | "Show.S2024.Extras" and "Show.S2024.S01E02" are season packs, the second despite its episode marker |
| `Helper.MergeProcessResults` | internal/helper.go:40-53 | merging with nil returns the other argument, and merging two nils gives no warnings |
| `Helper.MergeWarnings` | internal/helper.go:40-53 | the merged warnings are those of the first argument followed by those of the second, nil counting as none |
| `Helper.MergeAssociative` | internal/helper.go:40-53 | merging is associative |
| `MediaInfo.TrimLeft` | internal/mediainfo/mediainfo.go:58 | removes a prefix made only of white space, and the result does not start with white space |
| `MediaInfo.TrimRight` | internal/mediainfo/mediainfo.go:58 | removes a suffix made only of white space, and the result does not end with white space |
| `MediaInfo.TrimSpace` | internal/mediainfo/mediainfo.go:58 | the result is no longer than the input and neither starts nor ends with white space |
| `MediaInfo.TrimSpaceSpan` | internal/mediainfo/mediainfo.go:58 | the input is white space, then the trimmed text, then white space |
| `MediaInfo.TrimSpaceOfPadded` | internal/mediainfo/mediainfo.go:58 | padding a text with white space on both sides does not change its trimmed form |
| `MediaInfo.TrimSpaceKeeps` | internal/mediainfo/mediainfo.go:58 | a text that neither starts nor ends with white space is its own trimmed form |
| `MediaInfo.TrimSpaceIdempotent` | internal/mediainfo/mediainfo.go:58 | trimming twice is trimming once |
| `MediaInfo.RunEnd` | internal/mediainfo/mediainfo.go:62 | the end of the maximal run of digits starting at a position |
| `MediaInfo.FindVersion` | internal/mediainfo/mediainfo.go:62-63 | finds the leftmost position where `\d+\.\d+` starts, or proves there is none |
| `MediaInfo.VersionOf` | internal/mediainfo/mediainfo.go:62-82 | a parsed version is in the 64-bit range, and the no-version error carries the text it looked at |
| `MediaInfo.ParseMediaInfoVersion` | internal/mediainfo/mediainfo.go:56-83 | a parsed version is in the 64-bit range; the no-version error comes exactly when the trimmed output holds no `\d+\.\d+`, and it carries the trimmed output |
| `MediaInfo.VersionOfNone` | internal/mediainfo/mediainfo.go:63-67 | the no-version error is returned exactly when `\d+\.\d+` occurs nowhere |
| `MediaInfo.VersionOfLeftmost` | internal/mediainfo/mediainfo.go:62-82 | the version is major*100+minor of the leftmost match |
| `MediaInfo.FindVersionIs` | internal/mediainfo/mediainfo.go:62-63 | the search returns the first position where a version starts |
| `MediaInfo.ParseIgnoresPadding` | internal/mediainfo/mediainfo.go:58 | white space around the tool's output does not change the parsed version |
| `MediaInfo.ParseShaped` | internal/mediainfo/mediainfo.go:56-83 | text without digits, then major.minor, then text not starting with a digit, parses to major*100+minor |
| `MediaInfo.ParseNoDigits` | internal/mediainfo/mediainfo.go:63-67 | output without any digit is the no-version error |
| `MediaInfo.ParsesAfter` | internal/mediainfo/mediainfo.go:56-83 | a digit-free prefix followed by major.minor parses to major*100+minor |
| `MediaInfo.ParsesCurrentFormat` | internal/mediainfo/mediainfo_test.go:15-18 | the current banner format with v25.07 reads 2507 |
| `MediaInfo.ParsesMinorTwoZeros` | internal/mediainfo/mediainfo_test.go:21-24 | v23.00 reads 2300 |
| `MediaInfo.ParsesBannerFormat` | internal/mediainfo/mediainfo_test.go:27-30 | v24.06 after the banner line reads 2406 |
| `MediaInfo.ParsesLegacyFormat` | internal/mediainfo/mediainfo_test.go:33-36 | the legacy "MediaInfo v23.11" reads 2311 |
| `MediaInfo.ParsesWithoutV` | internal/mediainfo/mediainfo_test.go:39-42 | a version without the "v" prefix reads 2406 |
| `MediaInfo.ParsesOldRelease` | internal/mediainfo/mediainfo_test.go:45-48 | v20.09 reads 2009, and the version check then rejects it as too old |
| `MediaInfo.RejectsNoVersion` | internal/mediainfo/mediainfo_test.go:51-60 | output without a version, and empty output, are errors |
| `MediaInfo.ParsesBlankLine` | internal/mediainfo/mediainfo_test.go:63-66 | an empty line between banner and version does not matter: 2406 |
| `MediaInfo.ParsesMinorZero` | internal/mediainfo/mediainfo_test.go:69-72 | v23.0 reads 2300 |
| `MediaInfo.ParsesMinorOne` | internal/mediainfo/mediainfo_test.go:75-78 | v23.1 reads 2301 |
| `MediaInfo.CheckMediaInfoVersion` | internal/mediainfo/mediainfo.go:28-49 | an empty path is an error; the check passes exactly when the tool ran and reported a version of at least 2300; a too-old error carries a version below 2300 |
| `MediaInfo.CheckAcceptsFrom2300` | internal/mediainfo/mediainfo.go:44-46 | a version printed as major.minor passes the check exactly when it is at least 23.00 |
| `MediaInfo.VersionOrder` | internal/mediainfo/mediainfo.go:80 | with two-digit minors, major*100+minor orders versions lexicographically by (major, minor) |
| `MediaInfo.GenerateMediaInfoJson` | internal/mediainfo/mediainfo.go:13-25 | an empty path is "not available"; otherwise the result is the tool's output, or the tool's failure |
| `Api.GetFileName` | internal/api/api.go:152-157 | an NFO keeps its own non-empty name; every other asset is named "<release>.json" |
| `Api.MediaInfoFileName` | internal/api/api.go:152-157 | MediaInfo is always uploaded as "<release>.json", whatever original name is passed |
| `Api.TrimTrailingSlashes` | internal/api/api.go:65 | removes exactly the trailing run of slashes |
| `Api.LastElement` | internal/api/api.go:65 | the slash-free suffix that follows the last slash |
| `Api.Base` | internal/api/api.go:65 | `filepath.Base` on Unix paths is never empty and contains no slash unless it is "/" |
| `Api.BaseOfName` | internal/api/api.go:65 | the base of "dir/name", and of "name" alone, is the name |
| `Api.BaseOfSuffix` | internal/api/api.go:65 | the base of a path ending in "/name" is the name |
| `Api.LastElementOf` | internal/api/api.go:65 | the last element of a path ending in "/name" is the name |
| `Api.BaseIdempotent` | internal/api/api.go:65 | taking the base twice is taking it once |
| `Api.FieldValue` | internal/api/api.go:92-101 | a form field is found exactly when the form has a text field of that name |
| `Api.UploadedFileName` | internal/api/api.go:104 | a file name is found exactly when the form has a file part |
| `Api.FieldValueCons` | internal/api/api.go:92-101 | looking up a field in a form that starts with one part |
| `Api.FieldValueOptional` | internal/api/api.go:93-101 | an empty optional field is not sent; a non-empty one is sent with its value |
| `Api.FieldValueFirst` | internal/api/api.go:92-104 | a field found in the first part of a form is not overridden by later parts |
| `Api.FormFieldLookup` | internal/api/api.go:92-101 | FileType is always sent; OriginalFileName, Category and Hash are sent exactly when they are non-empty |
| `Api.FormFieldsShape` | internal/api/api.go:92-101 | the text fields come first, FileType leading, and carry no file part |
| `Api.UploadFormFile` | internal/api/api.go:104 | the file part carries the name `getFileName` gives |
| `Api.FileNameAfterFields` | internal/api/api.go:104 | the uploaded file name comes from the file part that follows the text fields |
| `Api.UploadSendsCategory` | internal/api/api.go:96-98 | a non-empty category is sent in the Category field of every upload form |
| `Api.UploadFileOutcome` | internal/api/api.go:84-150 | no request goes out exactly when the URL is refused; otherwise the form of `FileType`, the optional fields and the file goes to the release's files URL with the API key; an archive copy goes under the form's file name and only after a request; success means it was archived |
| `Api.UploadFile` | internal/api/api.go:84-150 | the method does what the outcome function describes |
| `Api.UploadFileSuccess` | internal/api/api.go:113-149 | the archive copy is written exactly when the request went out, the body was read and the status was 200 or 201; then it uses the name the form gave the file; the upload succeeds exactly when that copy could also be written; no request goes out exactly when the URL is refused |
| `Api.UploadFileRejected` | internal/api/api.go:139-141 | any other status is an error that carries the status and the body, and nothing is archived |
| `Api.ListStatusError` | internal/api/api.go:188-197 | 200 and 201 succeed; 401 is "unauthorized"; 400 is an error whose message is the body; any other status is an error that carries the status and the body and reads "file list upload failed with status <status>: <body>" |
| `Api.UploadFileListOutcome` | internal/api/api.go:160-200 | nothing is posted exactly when the URL is refused, and then the error is the request-creation error; otherwise the list goes to the release's filelists URL with the API key; a transport failure is the request-failed error; a response gives the error its status and body mean; it succeeds exactly when a response with status 200 or 201 came back |
| `Api.KindsAppend` | internal/api/api.go:52-82 | the asset kinds of two runs of attempts in a row are those of the first run followed by those of the second |
| `Api.AttemptOrder` | internal/api/api.go:52-82 | the assets are tried in this order: MediaInfo (when there is JSON), then the NFO (when named and readable), then the file list (when non-empty); an earlier answer never changes which later asset is tried |
| `Api.MediaInfoAssetName` | internal/api/api.go:54-58 | the MediaInfo JSON is uploaded as "<release>.json" |
| `Api.NfoAssetName` | internal/api/api.go:60-70 | the NFO is uploaded under the base name of its path |
| `Api.MediaInfoStepSendsCategory` | internal/api/api.go:54-58 | the MediaInfo upload carries the category |
| `Api.NfoStepSendsCategory` | internal/api/api.go:60-70 | the NFO upload carries the category |
| `Api.AssetsSendCategory` | internal/api/api.go:52-82 | every upload of uploadAssets carries the job's category |
| `Api.AssetAttempts` | internal/api/api.go:52-82 | one attempt per present asset (MediaInfo JSON, NFO name, file-list entries) and no more; every file upload goes to the release's files URL and the list to its filelists URL, all with the job's API key |
| `Api.UploadAssets` | internal/api/api.go:52-82 | the method's attempts are those the specification function describes |
| `Api.UploadToCrowdNfo` | internal/api/api.go:29-38 | no error is ever returned; the assets go up with the release's file list, or with none when it cannot be built |
| `Api.UploadEpisodeToCrowdNfo` | internal/api/api.go:43-50 | the assets go up under the episode's own release name, NFO and file list |
| `Api.FileListFailureSkipsList` | internal/api/api.go:30-35 | a file list that cannot be built is not uploaded, and the MediaInfo upload is still tried |
| `Category.OccursInList` | crowdnfo.go:203-207 | the loop finds a category exactly when the list holds it |
| `Category.IsValidCategory` | crowdnfo.go:202-209 | a category is valid exactly when it is one of the eight names, compared case-sensitively |
| `Category.FirstMatch` | crowdnfo.go:188-199 | the result is empty or the category of one of the rules |
| `Category.MatchCategoryByRegex` | crowdnfo.go:188-199 | detection with the table as the source spells it gives "" or a valid category other than "Other" |
| `Category.IntendedCategoryByRegex` | crowdnfo.go:188-199 | detection with "hörbuch" spelt as intended gives "" or a valid category other than "Other" |
| `Category.RuleOrder` | crowdnfo.go:35-46 | the table has seven rules, in this order: Audiobooks, Books, TV, Games, Software, Movies, Music |
| `Category.FirstMatchWins` | crowdnfo.go:189-196 | the first matching rule decides, whatever later rules match |
| `Category.NoMatchNoCategory` | crowdnfo.go:198 | when no rule matches, nothing is detected |
| `Category.FirstMatchIsFirst` | crowdnfo.go:188-199 | a category is detected exactly when some rule matches, and then it belongs to a matching rule before which no rule matches |
| `Category.GetCategory` | crowdnfo.go:264-272 | an explicit category is kept exactly when it is valid, and replaced by "" otherwise; an empty one is detected from the name; the result is "" or valid |
| `Category.CategoryCaseSensitive` | crowdnfo.go:264-272 | "TV" is accepted and "tv" is not |
| `Category.AbsentLit` | crowdnfo.go:35-46 | a literal word with two adjacent letters that never appear side by side in the name does not occur in it |
| `Category.AbsentLitLetter` | crowdnfo.go:35-46 | a literal word with a letter the lower-cased name lacks does not occur in it |
| `Category.SameAltsExcept` | crowdnfo.go:39 | two patterns that differ only in one alternative, which occurs in neither, match the same names |
| `Category.SameFirstMatch` | crowdnfo.go:188-199 | two tables that agree past their first rule, whose first rules name the same category and match alike, detect the same category |
| `Category.NoAlternative` | crowdnfo.go:188-199 | a pattern none of whose alternatives occurs does not match |
| `Category.ThirdRuleDecides` | crowdnfo.go:188-199 | when the first two rules fail and the third matches, the third decides |
| `Category.NotAudiobook` | crowdnfo.go:39 | "S01E02.720p" is not an audiobook |
| `Category.NotBook` | crowdnfo.go:40 | "S01E02.720p" is not a book |
| `Category.EpisodeMarkerIsTv` | crowdnfo.go:41 | "S01E02.720p" matches the TV rule |
| `Category.ResolutionIsMovie` | crowdnfo.go:44 | "S01E02.720p" also matches the Movies rule |
| `Category.EpisodeWithResolutionIsTv` | crowdnfo.go:35-46 | a name matched by both the TV and the Movies rules is TV, because the table order decides |
| `Category.HoerbuchNotBook` | crowdnfo.go:40 | "Hörbuch" is not a book |
| `Category.HoerbuchNotTv` | crowdnfo.go:41 | "Hörbuch" does not match the TV rule |
| `Category.HoerbuchNotGame` | crowdnfo.go:42 | "Hörbuch" does not match the Games rule |
| `Category.HoerbuchNotSoftware` | crowdnfo.go:43 | "Hörbuch" does not match the Software rule |
| `Category.HoerbuchNotMovie` | crowdnfo.go:44 | "Hörbuch" does not match the Movies rule |
| `Category.HoerbuchNotMusic` | crowdnfo.go:45 | "Hörbuch" does not match the Music rule |
| `Category.NoRuleMatches` | crowdnfo.go:188-199 | when none of the seven patterns matches, nothing is detected |
| `Category.AsWrittenMissesHoerbuch` | crowdnfo.go:39 | with the table as the source spells it, "Hörbuch" matches no rule, the audiobook rule included, so without an explicit category it gets none |
| `Category.IntendedWordInHoerbuch` | crowdnfo.go:39 | with "hörbuch", the audiobook pattern matches "Hörbuch" |
| `Category.IntendedMatchesHoerbuch` | crowdnfo.go:39 | with "hörbuch", "Hörbuch" is detected as Audiobooks |
| `Category.AudiobookSpellingsDiffer` | crowdnfo.go:39 | the two audiobook patterns differ in their fourth alternative only, and the two tables in their first rule only |
| `Category.CorrectionOnlyAffectsHoerbuch` | crowdnfo.go:39 | the correction changes the detected category only for names in which one of the two spellings of the word occurs |
| `Crowdnfo.ShouldCalculateHash` | crowdnfo.go:212-234 | hash exactly when the limit is 0, or it is positive and the file's size is within it; the stat error is reported exactly when the limit is positive and stat failed, and then nothing is hashed |
| `Crowdnfo.HashIgnoresFileUnlessPositive` | crowdnfo.go:213-221 | with a limit of zero or below, the file's size does not matter and there is never an error |
| `Crowdnfo.HashThresholdMonotone` | crowdnfo.go:228-233 | raising a positive limit never stops a file from being hashed |
| `Crowdnfo.CheckMediaInfoAvailable` | crowdnfo.go:251-262 | the path (or "mediainfo" when empty) is returned exactly when it is found on the search path, and "" otherwise |
| `Crowdnfo.GeneratedJson` | crowdnfo.go:86-94 | the tool's JSON output, or nothing when there is no tool or it failed |
| `Crowdnfo.KeptEpisodes` | crowdnfo.go:145-150 | at most one episode per video file, each with a non-empty release name |
| `Crowdnfo.KeptEpisodesAppend` | crowdnfo.go:145-150 | filtering distributes over concatenation of the video lists |
| `Crowdnfo.KeptEpisodesExactly` | crowdnfo.go:145-150 | an episode is kept exactly when it is extracted from some video file and has a release name |
| `Crowdnfo.KeptEpisodesAllValid` | crowdnfo.go:145-150 | when every video file yields a release name, every episode is kept, in order |
| `Crowdnfo.FilterEpisodes` | crowdnfo.go:142-150 | the filtering loop returns the kept episodes |
| `Crowdnfo.EpisodeHashDecision` | crowdnfo.go:159-162 | in the episode loop, hashing follows the size policy applied to the release path: always with a limit of 0, and with a positive limit when the release path's size is known and within it; the stat error is reported exactly when the limit is positive and stat of the release path failed |
| `Crowdnfo.EpisodeStep` | crowdnfo.go:157-181 | an episode is skipped exactly when it should be hashed and hashing fails; otherwise it is uploaded with the SHA-256 of its video file when the policy says to hash and with no hash otherwise, and with the tool's MediaInfo output for its video file when a tool is available and none otherwise |
| `Crowdnfo.SeasonOutcomes` | crowdnfo.go:157-182 | one outcome per episode |
| `Crowdnfo.SeasonOutcomesPointwise` | crowdnfo.go:157-182 | the k-th outcome is the step of the k-th episode |
| `Crowdnfo.SeasonOutcomesStep` | crowdnfo.go:157-182 | the outcomes of one more episode add that episode's step at the end |
| `Crowdnfo.UploadEpisodes` | crowdnfo.go:157-182 | the loop over the episodes produces the season outcomes |
| `Crowdnfo.SeasonPackOutcome` | crowdnfo.go:128-185 | a failed season pack has no episode outcomes |
| `Crowdnfo.ProcessSeasonPack` | crowdnfo.go:128-185 | the method produces the season-pack outcome |
| `Crowdnfo.SeasonPackWithoutEpisodes` | crowdnfo.go:131-155 | a failed scan is returned as the error; no video file, or no valid episode, is not an error and uploads nothing |
| `Crowdnfo.SeasonPackCoversEpisodes` | crowdnfo.go:157-184 | every valid episode gets exactly the outcome of its own step, in order, and the pack reports no error whatever happens to them |
| `Crowdnfo.HashFailureSkipsOnlyThatEpisode` | crowdnfo.go:163-168 | an episode is skipped exactly when it should be hashed and its hash fails; every episode whose hash succeeds is uploaded |
| `Crowdnfo.NoHashDecisionUploadsAll` | crowdnfo.go:159-169 | when the policy says not to hash, every episode is uploaded without a hash |
| `Crowdnfo.StatErrorStillUploads` | crowdnfo.go:160-162 | a stat error on the release path is only logged: every episode is uploaded without a hash |
| `Crowdnfo.SizeCheckUsesReleasePath` | crowdnfo.go:160 | the size limit is checked against the release path, not the episode's file |
| `Crowdnfo.AssetAttemptsIgnoreSizes` | internal/api/api.go:52-82 | uploading never looks at file sizes |
| `Crowdnfo.SeasonSendsCategory` | crowdnfo.go:180 | every upload of every uploaded episode carries the category |
| `Crowdnfo.ReturnedError` | crowdnfo.go:49-125 | ProcessRelease returns an error exactly when it gave up before uploading |
| `Crowdnfo.IsSeasonPackRelease` | crowdnfo.go:68 | a release is a season pack when its name says so or, failing that, when the scan of its path succeeded and found at least three video files |
| `Crowdnfo.VideoCount` | crowdnfo.go:69 | the directory fallback sees the number of video files exactly when the scan succeeded |
| `Crowdnfo.ResolveMediaFile` | crowdnfo.go:77-83 | the biggest file when it is found and named; otherwise the first audio file; nothing exactly when both are missing or empty |
| `Crowdnfo.ReleaseMediaInfo` | crowdnfo.go:86-94 | JSON given in the options is used as it is; no tool, or a hash-only file, leaves it unchanged; otherwise the tool's output for the media file is used |
| `Crowdnfo.SingleReleaseOutcome` | crowdnfo.go:77-124 | a single release never yields season outcomes; it is refused for want of a media file exactly when none is found; with one, it is uploaded exactly when there is no stat error and hashing, if the policy asks for it, succeeds; the upload carries the release's key, name and category, the media file's SHA-256 when hashed and no hash otherwise, the release's MediaInfo JSON, the NFO found (or none) and the file list (or none) |
| `Crowdnfo.SeasonReleaseOutcome` | crowdnfo.go:69-75 | a season pack never uploads the release as a whole; its outcomes are the season-pack outcomes |
| `Crowdnfo.ReleaseOutcome` | crowdnfo.go:49-125 | nothing happens without a release name, an API key and a category |
| `Crowdnfo.ReleaseModes` | crowdnfo.go:68-124 | past the checks, a season pack goes through the season-pack path and anything else through the single-release path |
| `Crowdnfo.ProcessRelease` | crowdnfo.go:49-125 | the method produces the release outcome |
| `Crowdnfo.FatalChecksInOrder` | crowdnfo.go:54-66 | the release name is checked first, then the API key, then the category, each with its own error |
| `Crowdnfo.UploadsNeedKeyAndCategory` | crowdnfo.go:59-66 | an upload needs a name, a key and a category; an explicit category that is not valid is always refused |
| `Crowdnfo.HoerbuchReleaseRefused` | crowdnfo.go:63-66 | a release named "Hörbuch" with an API key and no explicit category is refused with the invalid-category error |
| `Crowdnfo.SingleReleaseSendsCategory` | crowdnfo.go:118 | every upload of a single release carries the category |
| `Crowdnfo.SeasonReleaseSendsCategory` | crowdnfo.go:69-75 | every upload of a season pack carries the category |
| `Crowdnfo.ReleaseSendsCategory` | crowdnfo.go:63-124 | whatever is uploaded, in either mode, carries a valid category |
| `Crowdnfo.SingleReleaseWithoutHashing` | crowdnfo.go:96-118 | with a negative hash limit, a single release whose media file is found is always uploaded, without a hash and with its MediaInfo JSON |
| `Crowdnfo.SingleReleaseHashErrorIsFatal` | crowdnfo.go:96-110 | in single-release mode, a stat error or a hash error ends the run with that error |
| `Crowdnfo.StatErrorFatalOnlyForSingleRelease` | crowdnfo.go:157-169 | the same stat error in a season pack is only logged: every episode is uploaded without a hash |
| `Crowdnfo.ProvidedMediaInfoIsUsed` | crowdnfo.go:86-94 | MediaInfo JSON given in the options is uploaded unchanged, and so is an empty one when the tool is not available |

## Left out

- The file system, `exec`, SHA-256, HTTP and multipart encoding are oracle functions in `Env`. They are deterministic and total. Their bodies, timeouts, the User-Agent header and the bytes on the wire are not modelled.
- `getUserAgent` (internal/api/api.go:203-205) only formats a constant header, so it is not modelled. Its format string has a verb without an argument.
- The `files` package (findBiggestFile, findAllVideoFiles, extractEpisodeInfo, createFileList and the rest) is not part of this model. Each of its functions is an oracle.
- Errors from `writer.CreateFormFile`, `writer.Close` and `json.Marshal` are not modelled. With an in-memory buffer they cannot occur.
- `filepath.Join` is kept as a (directory, name) pair.
- `Api.Base` models `filepath.Base` for Unix paths only, with `/` as the only separator. On Windows, Go also splits at `\` and drops the volume name, so the NFO upload name at internal/api/api.go:65 can differ there.
- `Patterns.PatternMatches`, `Helper.IsSeasonPack` and `Category.MatchCategoryByRegex` fold case for ASCII letters only. Go's `(?i)` uses Unicode simple case folding, so the model misses some matches Go finds. For example, Go matches "ö" against "Ö", "s" against "ſ" (U+017F) and "k" against the Kelvin sign (U+212A). Go's `IsSeasonPack("Showſ02")` is true, and the model's is false. Names in ASCII, and every example name proved about here, are unaffected.
- The log output and its wording are left out, and so are `ProgressCB` and `examples/main.go`. Error values carry their cause, and only some messages are spelt out as text.
- `MergeProcessResults` returns a fresh value. Go's `append` may share the first argument's backing array, and that aliasing is not modelled.
- `Options.NFOFilePath` is carried but, as in the source, never read.
- `CheckMediaInfoVersion` is modelled, but `ProcessRelease` does not call it, as in the source.
- `ProcessRelease`: the "upload to CrowdNFO failed" branch (crowdnfo.go:120-122) is modelled as unreachable. `UploadToCrowdNFO` always returns nil.
- `ProcessRelease`: an invalid explicit category is reported as `InvalidCategory` without its text. The source prints the empty result of `getCategory` there, not the category the user gave.

## Findings

Detection in the model (`Category.MatchCategoryByRegex`, and through it `GetCategory` and `ProcessRelease`) uses the table as the source spells it. The corrected table is `Category.IntendedCategoryRules`, with `Category.IntendedCategoryByRegex` beside it. `Category.CorrectionOnlyAffectsHoerbuch` shows that the correction changes the detected category only for names in which one of the two spellings of the word occurs.

| source | as written | input that shows it | evidently intended | confidence | as-written member | corrected member |
|---|---|---|---|---|---|---|
| crowdnfo.go:39 | the audiobook alternative is spelt "h√∂rbuch", the UTF-8 bytes of "ö" read back as Mac Roman | the release name "Hörbuch" is not detected as Audiobooks; without an explicit category the release is refused as having an invalid category | the alternative "hörbuch", so that "Hörbuch" is an audiobook | high (not executed) | `Category.AsWrittenMissesHoerbuch` | `Category.IntendedMatchesHoerbuch` |
