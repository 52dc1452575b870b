/** crowdnfo.go: the hash policy, the MediaInfo tool lookup, and the two ways a
    release is processed: uploaded as a whole, or, for a season pack, episode
    by episode.  Category resolution lives in module Category. */
module Crowdnfo {
  import opened Wrappers
  import opened Types
  import opened Env
  import opened Helper
  import opened MediaInfo
  import opened Api
  import opened Category

  // ---------------------------------------------------------------------------
  // shouldCalculateHash

  /** What shouldCalculateHash returns: whether to hash, and the stat error. */
  datatype HashDecision = HashDecision(hash: bool, err: Option<Error>)

  /** shouldCalculateHash.  `size` is what os.Stat reports for the file; a
      threshold of 0 means "always hash", a negative one "never hash". */
  function ShouldCalculateHash(maxHashFileSize: int, size: Result<int, Error>): (r: HashDecision)
    ensures r.hash <==> maxHashFileSize == 0 || (maxHashFileSize > 0 && size.Ok? && size.value <= maxHashFileSize)
    ensures r.err.Some? <==> maxHashFileSize > 0 && size.Err?
    ensures r.err.Some? ==> r.err.value == size.error && !r.hash
  {
    if maxHashFileSize == 0 then HashDecision(true, None)
    else if maxHashFileSize < 0 then HashDecision(false, None)
    else if size.Err? then HashDecision(false, Some(size.error))
    else if size.value > maxHashFileSize then HashDecision(false, None)
    else HashDecision(true, None)
  }

  /** A threshold that is not positive decides without looking at the file. */
  lemma HashIgnoresFileUnlessPositive(maxHashFileSize: int, a: Result<int, Error>, b: Result<int, Error>)
    requires maxHashFileSize <= 0
    ensures ShouldCalculateHash(maxHashFileSize, a) == ShouldCalculateHash(maxHashFileSize, b)
    ensures ShouldCalculateHash(maxHashFileSize, a).err == None
  {
  }

  /** Raising a positive threshold never turns hashing off. */
  lemma HashThresholdMonotone(low: int, high: int, size: Result<int, Error>)
    requires 0 < low <= high
    ensures ShouldCalculateHash(low, size).hash ==> ShouldCalculateHash(high, size).hash
    ensures ShouldCalculateHash(low, size).err == ShouldCalculateHash(high, size).err
  {
  }

  // ---------------------------------------------------------------------------
  // checkMediaInfoAvailable

  /** The tool name used when no path is configured. */
  const DefaultMediaInfo: string := "mediainfo"

  /** checkMediaInfoAvailable: the configured path (or "mediainfo") when
      exec.LookPath finds it, otherwise "". */
  function CheckMediaInfoAvailable(path: string, lookPath: string -> bool): (r: string)
    ensures r != "" <==> lookPath(if path == "" then DefaultMediaInfo else path)
    ensures r != "" ==> r == (if path == "" then DefaultMediaInfo else path)
  {
    var candidate := if path == "" then DefaultMediaInfo else path;
    if lookPath(candidate) then candidate else ""
  }

  /** What GenerateMediaInfoJSON leaves in `mediaInfoJSON`: the tool's output,
      or nothing when it failed (the failure is only logged). */
  function GeneratedJson(env: Env, mediaInfoPath: string, file: string): (r: seq<Byte>)
    ensures mediaInfoPath != "" && env.runMediaInfo(mediaInfoPath, file).Ok? ==> r == env.runMediaInfo(mediaInfoPath, file).value
    ensures mediaInfoPath == "" || env.runMediaInfo(mediaInfoPath, file).Err? ==> r == []
  {
    match GenerateMediaInfoJson(mediaInfoPath, env.runMediaInfo(mediaInfoPath, file))
    case Ok(json) => json
    case Err(_) => []
  }

  // ---------------------------------------------------------------------------
  // processSeasonPack

  /** The arguments of processSeasonPack. */
  datatype SeasonJob = SeasonJob(apiKey: string, releasePath: string, releaseName: string, category: string,
                                 archiveDir: string, mediaInfoPath: string, maxHashFileSize: int)

  /** The filter loop: the episode infos extracted from the video files, in
      order, keeping those that carry a release name. */
  function KeptEpisodes(env: Env, videos: seq<VideoFile>, releaseName: string, generalNfo: string): (r: seq<EpisodeInfo>)
    ensures |r| <= |videos|
    ensures forall k :: 0 <= k < |r| ==> r[k].releaseName != ""
  {
    if videos == [] then []
    else
      var kept := KeptEpisodes(env, videos[..|videos| - 1], releaseName, generalNfo);
      var info := env.extractEpisodeInfo(videos[|videos| - 1], releaseName, generalNfo);
      if info.releaseName != "" then kept + [info] else kept
  }

  /** The filter keeps video-file order: filtering two runs of files one
      after the other is filtering each and concatenating. */
  lemma {:induction false} KeptEpisodesAppend(env: Env, a: seq<VideoFile>, b: seq<VideoFile>, releaseName: string, generalNfo: string)
    ensures KeptEpisodes(env, a + b, releaseName, generalNfo)
         == KeptEpisodes(env, a, releaseName, generalNfo) + KeptEpisodes(env, b, releaseName, generalNfo)
    decreases |b|
  {
    if b == [] {
      assert a + b == a;
    } else {
      var init := b[..|b| - 1];
      assert (a + b)[..|a + b| - 1] == a + init;
      assert (a + b)[|a + b| - 1] == b[|b| - 1];
      KeptEpisodesAppend(env, a, init, releaseName, generalNfo);
    }
  }

  /** An info is kept exactly when it carries a release name and was
      extracted from one of the video files. */
  lemma {:induction false} KeptEpisodesExactly(env: Env, videos: seq<VideoFile>, releaseName: string, generalNfo: string, e: EpisodeInfo)
    ensures e in KeptEpisodes(env, videos, releaseName, generalNfo)
        <==> e.releaseName != "" && exists k :: 0 <= k < |videos| && e == env.extractEpisodeInfo(videos[k], releaseName, generalNfo)
    decreases |videos|
  {
    if videos != [] {
      var init := videos[..|videos| - 1];
      KeptEpisodesExactly(env, init, releaseName, generalNfo, e);
      if exists k :: 0 <= k < |videos| && e == env.extractEpisodeInfo(videos[k], releaseName, generalNfo) {
        var k :| 0 <= k < |videos| && e == env.extractEpisodeInfo(videos[k], releaseName, generalNfo);
        if k < |init| {
          assert videos[k] == init[k];
        }
      }
      if exists k :: 0 <= k < |init| && e == env.extractEpisodeInfo(init[k], releaseName, generalNfo) {
        var k :| 0 <= k < |init| && e == env.extractEpisodeInfo(init[k], releaseName, generalNfo);
        assert init[k] == videos[k];
      }
    }
  }

  /** When every video file yields a valid info, all are kept, one per file,
      in file order: there is no deduplication. */
  lemma {:induction false} KeptEpisodesAllValid(env: Env, videos: seq<VideoFile>, releaseName: string, generalNfo: string)
    requires forall k :: 0 <= k < |videos| ==> env.extractEpisodeInfo(videos[k], releaseName, generalNfo).releaseName != ""
    ensures |KeptEpisodes(env, videos, releaseName, generalNfo)| == |videos|
    ensures forall k :: 0 <= k < |videos| ==>
      KeptEpisodes(env, videos, releaseName, generalNfo)[k] == env.extractEpisodeInfo(videos[k], releaseName, generalNfo)
    decreases |videos|
  {
    if videos != [] {
      var init := videos[..|videos| - 1];
      assert forall k :: 0 <= k < |init| ==> init[k] == videos[k];
      KeptEpisodesAllValid(env, init, releaseName, generalNfo);
    }
  }

  /** What happened to one kept episode: skipped because its hash could not
      be computed, or uploaded with this hash and MediaInfo JSON. */
  datatype EpisodeOutcome =
    | HashSkipped(episode: EpisodeInfo, cause: Error)
    | EpisodeUploaded(episode: EpisodeInfo, hash: string, mediaInfoJson: seq<Byte>, attempts: seq<Attempt>)

  /** The hash policy of the per-episode loop: it stats the release path, not
      the episode's own file. */
  function EpisodeHashDecision(env: Env, job: SeasonJob): (r: HashDecision)
    ensures r.hash <==> (job.maxHashFileSize == 0
      || (job.maxHashFileSize > 0 && env.fileSize(job.releasePath).Ok? && env.fileSize(job.releasePath).value <= job.maxHashFileSize))
    ensures r.err.Some? <==> job.maxHashFileSize > 0 && env.fileSize(job.releasePath).Err?
  {
    ShouldCalculateHash(job.maxHashFileSize, env.fileSize(job.releasePath))
  }

  /** One turn of the per-episode loop. */
  function EpisodeStep(env: Env, job: SeasonJob, episode: EpisodeInfo): (r: EpisodeOutcome)
    ensures r.episode == episode
    ensures r.HashSkipped? <==> EpisodeHashDecision(env, job).hash && env.sha256(episode.videoFile.path).Err?
    ensures r.EpisodeUploaded? && !EpisodeHashDecision(env, job).hash ==> r.hash == ""
    ensures r.EpisodeUploaded? && EpisodeHashDecision(env, job).hash ==> r.hash == env.sha256(episode.videoFile.path).value
    ensures r.EpisodeUploaded? && job.mediaInfoPath != "" ==>
      r.mediaInfoJson == GeneratedJson(env, job.mediaInfoPath, episode.videoFile.path)
    ensures r.EpisodeUploaded? && job.mediaInfoPath == "" ==> r.mediaInfoJson == []
    ensures r.EpisodeUploaded? ==>
      r.attempts == AssetAttempts(env, EpisodeJob(env, job.apiKey, episode, job.category, r.hash, r.mediaInfoJson, job.archiveDir))
  {
    var decision := EpisodeHashDecision(env, job);
    var sha := env.sha256(episode.videoFile.path);
    if decision.hash && sha.Err? then HashSkipped(episode, sha.error)
    else
      var hash := if decision.hash then sha.value else "";
      var json := if job.mediaInfoPath != "" then GeneratedJson(env, job.mediaInfoPath, episode.videoFile.path) else [];
      EpisodeUploaded(episode, hash, json, AssetAttempts(env, EpisodeJob(env, job.apiKey, episode, job.category, hash, json, job.archiveDir)))
  }

  /** The per-episode loop over the kept episodes. */
  function SeasonOutcomes(env: Env, job: SeasonJob, episodes: seq<EpisodeInfo>): (r: seq<EpisodeOutcome>)
    ensures |r| == |episodes|
  {
    if episodes == [] then []
    else SeasonOutcomes(env, job, episodes[..|episodes| - 1]) + [EpisodeStep(env, job, episodes[|episodes| - 1])]
  }

  /** The loop handles every episode on its own: a skipped episode does not
      stop the loop, and the i-th outcome is that of the i-th episode. */
  lemma {:induction false} SeasonOutcomesPointwise(env: Env, job: SeasonJob, episodes: seq<EpisodeInfo>)
    ensures forall k :: 0 <= k < |episodes| ==> SeasonOutcomes(env, job, episodes)[k] == EpisodeStep(env, job, episodes[k])
    decreases |episodes|
  {
    if episodes != [] {
      var init := episodes[..|episodes| - 1];
      SeasonOutcomesPointwise(env, job, init);
      assert forall k :: 0 <= k < |init| ==> init[k] == episodes[k];
    }
  }

  /** What processSeasonPack returns, and the episodes it went through. */
  datatype SeasonResult = SeasonResult(err: Option<Error>, outcomes: seq<EpisodeOutcome>)

  /** processSeasonPack as a function of the oracles. */
  function SeasonPackOutcome(env: Env, job: SeasonJob): (r: SeasonResult)
    ensures r.err.Some? ==> r.outcomes == []
  {
    match env.findAllVideoFiles(job.releasePath)
    case Err(e) => SeasonResult(Some(e), [])
    case Ok(videos) =>
      if |videos| == 0 then SeasonResult(None, [])
      else
        var episodes := KeptEpisodes(env, videos, job.releaseName, env.findGeneralNfo(job.releasePath));
        if |episodes| == 0 then SeasonResult(None, [])
        else SeasonResult(None, SeasonOutcomes(env, job, episodes))
  }

  /** The filter loop of processSeasonPack. */
  method FilterEpisodes(env: Env, videoFiles: seq<VideoFile>, releaseName: string, generalNfo: string)
    returns (episodes: seq<EpisodeInfo>)
    ensures episodes == KeptEpisodes(env, videoFiles, releaseName, generalNfo)
  {
    episodes := [];
    var i := 0;
    while i < |videoFiles|
      invariant 0 <= i <= |videoFiles|
      invariant episodes == KeptEpisodes(env, videoFiles[..i], releaseName, generalNfo)
    {
      var info := env.extractEpisodeInfo(videoFiles[i], releaseName, generalNfo);
      if info.releaseName != "" {
        episodes := episodes + [info];
      }
      assert videoFiles[..i + 1][..i] == videoFiles[..i];
      i := i + 1;
    }
    assert videoFiles[..i] == videoFiles;
  }

  lemma SeasonOutcomesStep(env: Env, job: SeasonJob, episodes: seq<EpisodeInfo>, j: nat)
    requires j < |episodes|
    ensures SeasonOutcomes(env, job, episodes[..j + 1])
      == SeasonOutcomes(env, job, episodes[..j]) + [EpisodeStep(env, job, episodes[j])]
  {
    assert episodes[..j + 1][..j] == episodes[..j];
  }

  /** The per-episode loop of processSeasonPack: hash (or skip the episode
      when hashing fails), generate MediaInfo, upload. */
  method UploadEpisodes(env: Env, job: SeasonJob, episodes: seq<EpisodeInfo>) returns (outcomes: seq<EpisodeOutcome>)
    ensures outcomes == SeasonOutcomes(env, job, episodes)
  {
    outcomes := [];
    var j := 0;
    while j < |episodes|
      invariant 0 <= j <= |episodes|
      invariant outcomes == SeasonOutcomes(env, job, episodes[..j])
    {
      var episode := episodes[j];
      SeasonOutcomesStep(env, job, episodes, j);
      j := j + 1;
      var hash := "";
      var decision := ShouldCalculateHash(job.maxHashFileSize, env.fileSize(job.releasePath));
      if decision.err.None? && decision.hash {
        var sha := env.sha256(episode.videoFile.path);
        if sha.Err? {
          outcomes := outcomes + [HashSkipped(episode, sha.error)];
          continue;
        }
        hash := sha.value;
      }
      var mediaInfoJson: seq<Byte> := [];
      if job.mediaInfoPath != "" {
        mediaInfoJson := GeneratedJson(env, job.mediaInfoPath, episode.videoFile.path);
      }
      var attempts := UploadEpisodeToCrowdNfo(env, job.apiKey, episode, job.category, hash, mediaInfoJson, job.archiveDir);
      outcomes := outcomes + [EpisodeUploaded(episode, hash, mediaInfoJson, attempts)];
    }
    assert episodes[..j] == episodes;
  }

  /** processSeasonPack. */
  method ProcessSeasonPack(env: Env, job: SeasonJob) returns (r: SeasonResult)
    ensures r == SeasonPackOutcome(env, job)
  {
    var scan := env.findAllVideoFiles(job.releasePath);
    if scan.Err? {
      return SeasonResult(Some(scan.error), []);
    }
    var videoFiles := scan.value;
    if |videoFiles| == 0 {
      return SeasonResult(None, []);
    }
    var generalNfo := env.findGeneralNfo(job.releasePath);
    var episodes := FilterEpisodes(env, videoFiles, job.releaseName, generalNfo);
    if |episodes| == 0 {
      return SeasonResult(None, []);
    }
    var outcomes := UploadEpisodes(env, job, episodes);
    r := SeasonResult(None, outcomes);
  }

  /** A failed scan is returned as the error; no video file, or no valid
      episode, is not an error and uploads nothing. */
  lemma SeasonPackWithoutEpisodes(env: Env, job: SeasonJob)
    ensures env.findAllVideoFiles(job.releasePath).Err? ==>
      SeasonPackOutcome(env, job) == SeasonResult(Some(env.findAllVideoFiles(job.releasePath).error), [])
    ensures env.findAllVideoFiles(job.releasePath) == Ok([]) ==> SeasonPackOutcome(env, job) == SeasonResult(None, [])
    ensures env.findAllVideoFiles(job.releasePath).Ok?
         && KeptEpisodes(env, env.findAllVideoFiles(job.releasePath).value, job.releaseName, env.findGeneralNfo(job.releasePath)) == []
        ==> SeasonPackOutcome(env, job) == SeasonResult(None, [])
  {
  }

  /** With valid episodes, every one of them gets an outcome, in order, and
      the pack reports no error whatever happened to them. */
  lemma SeasonPackCoversEpisodes(env: Env, job: SeasonJob)
    requires env.findAllVideoFiles(job.releasePath).Ok?
    ensures var episodes := KeptEpisodes(env, env.findAllVideoFiles(job.releasePath).value, job.releaseName,
                                         env.findGeneralNfo(job.releasePath));
      SeasonPackOutcome(env, job).err == None
      && |SeasonPackOutcome(env, job).outcomes| == |episodes|
      && forall k :: 0 <= k < |episodes| ==> SeasonPackOutcome(env, job).outcomes[k] == EpisodeStep(env, job, episodes[k])
  {
    var videos := env.findAllVideoFiles(job.releasePath).value;
    var episodes := KeptEpisodes(env, videos, job.releaseName, env.findGeneralNfo(job.releasePath));
    SeasonOutcomesPointwise(env, job, episodes);
  }

  /** A hash failure skips that episode's upload only: every other episode
      is still uploaded. */
  lemma HashFailureSkipsOnlyThatEpisode(env: Env, job: SeasonJob, episodes: seq<EpisodeInfo>, k: nat)
    requires k < |episodes|
    ensures SeasonOutcomes(env, job, episodes)[k].HashSkipped?
        <==> EpisodeHashDecision(env, job).hash && env.sha256(episodes[k].videoFile.path).Err?
    ensures forall m :: 0 <= m < |episodes| && env.sha256(episodes[m].videoFile.path).Ok? ==>
      SeasonOutcomes(env, job, episodes)[m].EpisodeUploaded?
  {
    SeasonOutcomesPointwise(env, job, episodes);
  }

  /** When the policy says not to hash (a stat error on the release path, or
      the release path over the threshold), every episode is uploaded
      without a hash; the episodes' own files are not hashed. */
  lemma NoHashDecisionUploadsAll(env: Env, job: SeasonJob, episodes: seq<EpisodeInfo>)
    requires !EpisodeHashDecision(env, job).hash
    ensures forall k :: 0 <= k < |episodes| ==>
      SeasonOutcomes(env, job, episodes)[k].EpisodeUploaded? && SeasonOutcomes(env, job, episodes)[k].hash == ""
  {
    SeasonOutcomesPointwise(env, job, episodes);
  }

  /** A stat error on the release path is logged, not fatal. */
  lemma StatErrorStillUploads(env: Env, job: SeasonJob, episodes: seq<EpisodeInfo>)
    requires job.maxHashFileSize > 0 && env.fileSize(job.releasePath).Err?
    ensures forall k :: 0 <= k < |episodes| ==>
      SeasonOutcomes(env, job, episodes)[k].EpisodeUploaded? && SeasonOutcomes(env, job, episodes)[k].hash == ""
  {
    NoHashDecisionUploadsAll(env, job, episodes);
  }

  /** The size check looks at the release path only: changing the size the
      file system reports for any other path changes nothing. */
  lemma SizeCheckUsesReleasePath(env: Env, job: SeasonJob, episode: EpisodeInfo, sizes: string -> Result<int, Error>)
    requires sizes(job.releasePath) == env.fileSize(job.releasePath)
    ensures EpisodeStep(env.(fileSize := sizes), job, episode) == EpisodeStep(env, job, episode)
  {
    var env' := env.(fileSize := sizes);
    var decision := EpisodeHashDecision(env, job);
    var sha := env.sha256(episode.videoFile.path);
    if !(decision.hash && sha.Err?) {
      var hash := if decision.hash then sha.value else "";
      var json := if job.mediaInfoPath != "" then GeneratedJson(env, job.mediaInfoPath, episode.videoFile.path) else [];
      var upload := EpisodeJob(env, job.apiKey, episode, job.category, hash, json, job.archiveDir);
      assert EpisodeJob(env', job.apiKey, episode, job.category, hash, json, job.archiveDir) == upload;
      AssetAttemptsIgnoreSizes(env, upload, sizes);
    }
  }

  /** uploadAssets never asks for a file size. */
  lemma AssetAttemptsIgnoreSizes(env: Env, job: UploadJob, sizes: string -> Result<int, Error>)
    ensures AssetAttempts(env.(fileSize := sizes), job) == AssetAttempts(env, job)
  {
    var env' := env.(fileSize := sizes);
    assert MediaInfoStep(env', job) == MediaInfoStep(env, job);
    assert NfoStep(env', job) == NfoStep(env, job);
    assert FileListStep(env', job) == FileListStep(env, job);
  }

  /** Every request the season pack sends carries its category. */
  lemma SeasonSendsCategory(env: Env, job: SeasonJob, episodes: seq<EpisodeInfo>)
    requires job.category != ""
    ensures forall k :: 0 <= k < |episodes| && SeasonOutcomes(env, job, episodes)[k].EpisodeUploaded? ==>
      forall a :: a in SeasonOutcomes(env, job, episodes)[k].attempts ==> SendsCategory(a, job.category)
  {
    SeasonOutcomesPointwise(env, job, episodes);
    forall k | 0 <= k < |episodes| && SeasonOutcomes(env, job, episodes)[k].EpisodeUploaded?
      ensures forall a :: a in SeasonOutcomes(env, job, episodes)[k].attempts ==> SendsCategory(a, job.category)
    {
      var o := SeasonOutcomes(env, job, episodes)[k];
      AssetsSendCategory(env, EpisodeJob(env, job.apiKey, episodes[k], job.category, o.hash, o.mediaInfoJson, job.archiveDir));
    }
  }

  // ---------------------------------------------------------------------------
  // ProcessRelease

  /** Options.  NFOFilePath is carried but, as in the source, never read. */
  datatype Options = Options(releasePath: string, mediaInfoPath: string, mediaInfoJson: seq<Byte>, category: string,
                             nfoFilePath: string, apiKey: string, archiveDir: string, maxHashFileSize: int)

  /** Why ProcessRelease gave up. */
  datatype ReleaseError =
    | NoReleaseName(path: string)     // "Could not determine release name from path: %s"
    | MissingApiKey                   // "API key is required"
    | InvalidCategory                 // "Invalid category: %s", printed with the empty result
    | SeasonPackFailed(cause: Error)  // the season pack's own error, unwrapped
    | NoMediaFile(path: string)       // "No media file found in: %s"
    | StatFailed(cause: Error)        // shouldCalculateHash's stat error, unwrapped
    | HashFailed(cause: Error)        // calculateSHA256's error, unwrapped

  /** What ProcessRelease did: gave up before uploading anything, processed a
      season pack episode by episode, or uploaded the release as a whole. */
  datatype ReleaseResult =
    | Refused(error: ReleaseError)
    | SeasonPackProcessed(outcomes: seq<EpisodeOutcome>)
    | ReleaseUploaded(job: UploadJob, attempts: seq<Attempt>)

  /** The error ProcessRelease returns (nil for the last two). */
  function ReturnedError(r: ReleaseResult): (e: Option<ReleaseError>)
    ensures e.Some? <==> r.Refused?
  {
    if r.Refused? then Some(r.error) else None
  }

  /** The directory heuristic's view of the video-file scan. */
  function VideoCount(scan: Result<seq<VideoFile>, Error>): (r: Option<nat>)
    ensures r.Some? <==> scan.Ok?
    ensures r.Some? ==> r.value == |scan.value|
  {
    if scan.Ok? then Some(|scan.value|) else None
  }

  /** The media file: the biggest file, or else the first audio file; an
      error or an empty name counts as not found. */
  function ResolveMediaFile(env: Env, releasePath: string): (r: Option<string>)
    ensures r.Some? ==> r.value != ""
    ensures env.findBiggestFile(releasePath).Ok? && env.findBiggestFile(releasePath).value != "" ==>
      r == Some(env.findBiggestFile(releasePath).value)
    ensures r.None? <==>
      (env.findBiggestFile(releasePath).Err? || env.findBiggestFile(releasePath).value == "")
      && (env.findFirstAudioFile(releasePath).Err? || env.findFirstAudioFile(releasePath).value == "")
  {
    var biggest := env.findBiggestFile(releasePath);
    if biggest.Ok? && biggest.value != "" then Some(biggest.value)
    else
      var audio := env.findFirstAudioFile(releasePath);
      if audio.Ok? && audio.value != "" then Some(audio.value) else None
  }

  /** The MediaInfo JSON of a single release: the one given in the options,
      or else the tool's output for a media file that is not hash-only. */
  function ReleaseMediaInfo(env: Env, opts: Options, mediaInfoPath: string, mediaFile: string): (r: seq<Byte>)
    ensures |opts.mediaInfoJson| > 0 || mediaInfoPath == "" || env.isHashOnlyFile(mediaFile) ==> r == opts.mediaInfoJson
    ensures mediaInfoPath != "" && |opts.mediaInfoJson| == 0 && !env.isHashOnlyFile(mediaFile) ==>
      r == GeneratedJson(env, mediaInfoPath, mediaFile)
  {
    if mediaInfoPath != "" && |opts.mediaInfoJson| == 0 && !env.isHashOnlyFile(mediaFile) then
      GeneratedJson(env, mediaInfoPath, mediaFile)
    else opts.mediaInfoJson
  }

  /** The NFO file handed to the upload: "" when none was found. */
  function NfoOrNone(found: Result<string, Error>): string {
    if found.Ok? then found.value else ""
  }

  /** The season job ProcessRelease hands over. */
  function SeasonJobOf(opts: Options, releaseName: string, category: string, mediaInfoPath: string): SeasonJob {
    SeasonJob(opts.apiKey, opts.releasePath, releaseName, category, opts.archiveDir, mediaInfoPath, opts.maxHashFileSize)
  }

  /** Whether the release is handled as a season pack. */
  predicate IsSeasonPackRelease(env: Env, releasePath: string, releaseName: string)
    ensures IsSeasonPackRelease(env, releasePath, releaseName) <==> (IsSeasonPack(releaseName)
      || (env.findAllVideoFiles(releasePath).Ok? && |env.findAllVideoFiles(releasePath).value| >= 3))
  {
    IsSeasonPack(releaseName) || IsSeasonPackFallback(VideoCount(env.findAllVideoFiles(releasePath)))
  }

  /** The single-release half of ProcessRelease, after the checks: find the
      media file, produce MediaInfo, hash, and upload. */
  function SingleReleaseOutcome(env: Env, opts: Options, releaseName: string, category: string, mediaInfoPath: string)
    : (r: ReleaseResult)
    ensures !r.SeasonPackProcessed?
    ensures r.ReleaseUploaded? ==>
      r.attempts == AssetAttempts(env, r.job) && r.job.apiKey == opts.apiKey
      && r.job.releaseName == releaseName && r.job.category == category
    ensures r == Refused(NoMediaFile(opts.releasePath)) <==> ResolveMediaFile(env, opts.releasePath).None?
    ensures ResolveMediaFile(env, opts.releasePath).Some? ==>
      var f := ResolveMediaFile(env, opts.releasePath).value;
      var d := ShouldCalculateHash(opts.maxHashFileSize, env.fileSize(f));
      (r.ReleaseUploaded? <==> d.err.None? && !(d.hash && env.sha256(f).Err?))
      && (r.ReleaseUploaded? ==>
            r.job.hash == (if d.hash then env.sha256(f).value else "")
            && r.job.mediaInfoJson == ReleaseMediaInfo(env, opts, mediaInfoPath, f)
            && r.job.nfoFile == NfoOrNone(env.findNfoFile(opts.releasePath))
            && r.job.entries == EntriesOrNone(env.createFileList(opts.releasePath, releaseName))
            && r.job.archiveDir == opts.archiveDir)
  {
    match ResolveMediaFile(env, opts.releasePath)
    case None => Refused(NoMediaFile(opts.releasePath))
    case Some(mediaFile) =>
      var json := ReleaseMediaInfo(env, opts, mediaInfoPath, mediaFile);
      var decision := ShouldCalculateHash(opts.maxHashFileSize, env.fileSize(mediaFile));
      var sha := env.sha256(mediaFile);
      if decision.err.Some? then Refused(StatFailed(decision.err.value))
      else if decision.hash && sha.Err? then Refused(HashFailed(sha.error))
      else
        var hash := if decision.hash then sha.value else "";
        var job := UploadJob(opts.apiKey, releaseName, category, hash, opts.archiveDir, json,
                             NfoOrNone(env.findNfoFile(opts.releasePath)),
                             EntriesOrNone(env.createFileList(opts.releasePath, releaseName)));
        ReleaseUploaded(job, AssetAttempts(env, job))
  }

  /** The season-pack half of ProcessRelease: its error is returned as is. */
  function SeasonReleaseOutcome(env: Env, job: SeasonJob): (r: ReleaseResult)
    ensures !r.ReleaseUploaded?
    ensures r.SeasonPackProcessed? ==> r.outcomes == SeasonPackOutcome(env, job).outcomes
  {
    var season := SeasonPackOutcome(env, job);
    if season.err.Some? then Refused(SeasonPackFailed(season.err.value))
    else SeasonPackProcessed(season.outcomes)
  }

  /** ProcessRelease as a function of the options and the oracles. */
  function ReleaseOutcome(env: Env, opts: Options): (r: ReleaseResult)
    ensures !r.Refused? ==>
      env.getBaseOrName(opts.releasePath) != "" && opts.apiKey != ""
      && GetCategory(opts.category, env.getBaseOrName(opts.releasePath)) != ""
  {
    var mediaInfoPath := CheckMediaInfoAvailable(opts.mediaInfoPath, env.lookPath);
    var releaseName := env.getBaseOrName(opts.releasePath);
    if releaseName == "" then Refused(NoReleaseName(opts.releasePath))
    else if opts.apiKey == "" then Refused(MissingApiKey)
    else
      var category := GetCategory(opts.category, releaseName);
      if category == "" then Refused(InvalidCategory)
      else if IsSeasonPackRelease(env, opts.releasePath, releaseName) then
        SeasonReleaseOutcome(env, SeasonJobOf(opts, releaseName, category, mediaInfoPath))
      else SingleReleaseOutcome(env, opts, releaseName, category, mediaInfoPath)
  }

  /** Past the checks, the release goes one of two ways. */
  lemma ReleaseModes(env: Env, opts: Options)
    requires !ReleaseOutcome(env, opts).Refused?
    ensures var releaseName := env.getBaseOrName(opts.releasePath);
      var category := GetCategory(opts.category, releaseName);
      var mediaInfoPath := CheckMediaInfoAvailable(opts.mediaInfoPath, env.lookPath);
      if IsSeasonPackRelease(env, opts.releasePath, releaseName)
      then ReleaseOutcome(env, opts) == SeasonReleaseOutcome(env, SeasonJobOf(opts, releaseName, category, mediaInfoPath))
      else ReleaseOutcome(env, opts) == SingleReleaseOutcome(env, opts, releaseName, category, mediaInfoPath)
  {
  }

  /** ProcessRelease.  The upload reports no error (UploadToCrowdNfo
      promises None), so the source's "upload to CrowdNFO failed" branch
      cannot be taken and is not written out. */
  method ProcessRelease(env: Env, opts: Options) returns (r: ReleaseResult)
    ensures r == ReleaseOutcome(env, opts)
  {
    var mediaInfoPath := CheckMediaInfoAvailable(opts.mediaInfoPath, env.lookPath);
    var mediaInfoJson := opts.mediaInfoJson;

    var releaseName := env.getBaseOrName(opts.releasePath);
    if releaseName == "" {
      return Refused(NoReleaseName(opts.releasePath));
    }
    if opts.apiKey == "" {
      return Refused(MissingApiKey);
    }
    var category := GetCategory(opts.category, releaseName);
    if category == "" {
      return Refused(InvalidCategory);
    }

    if IsSeasonPack(releaseName) || IsSeasonPackFallback(VideoCount(env.findAllVideoFiles(opts.releasePath))) {
      var season := ProcessSeasonPack(env, SeasonJobOf(opts, releaseName, category, mediaInfoPath));
      if season.err.Some? {
        return Refused(SeasonPackFailed(season.err.value));
      }
      return SeasonPackProcessed(season.outcomes);
    }

    var found := env.findBiggestFile(opts.releasePath);
    var mediaFile := if found.Ok? then found.value else "";
    if found.Err? || mediaFile == "" {
      found := env.findFirstAudioFile(opts.releasePath);
      mediaFile := if found.Ok? then found.value else "";
      if found.Err? || mediaFile == "" {
        return Refused(NoMediaFile(opts.releasePath));
      }
    }

    if mediaFile != "" && mediaInfoPath != "" && |mediaInfoJson| == 0 {
      if !env.isHashOnlyFile(mediaFile) {
        mediaInfoJson := GeneratedJson(env, mediaInfoPath, mediaFile);
      }
    }

    var hash := "";
    if mediaFile != "" {
      var decision := ShouldCalculateHash(opts.maxHashFileSize, env.fileSize(mediaFile));
      if decision.err.Some? {
        return Refused(StatFailed(decision.err.value));
      } else if decision.hash {
        var sha := env.sha256(mediaFile);
        if sha.Err? {
          return Refused(HashFailed(sha.error));
        }
        hash := sha.value;
      }
    }

    var nfoFile := "";
    var nfo := env.findNfoFile(opts.releasePath);
    if nfo.Ok? {
      nfoFile := nfo.value;
    }

    var attempts, uploadErr := UploadToCrowdNfo(env, opts.apiKey, releaseName, category, hash, opts.releasePath,
                                                mediaInfoJson, nfoFile, opts.archiveDir);
    r := ReleaseUploaded(UploadJob(opts.apiKey, releaseName, category, hash, opts.archiveDir, mediaInfoJson, nfoFile,
                                   EntriesOrNone(env.createFileList(opts.releasePath, releaseName))), attempts);
  }

  /** The fatal checks come in a fixed order: release name, API key, category. */
  lemma FatalChecksInOrder(env: Env, opts: Options)
    ensures env.getBaseOrName(opts.releasePath) == "" ==> ReleaseOutcome(env, opts) == Refused(NoReleaseName(opts.releasePath))
    ensures env.getBaseOrName(opts.releasePath) != "" && opts.apiKey == "" ==> ReleaseOutcome(env, opts) == Refused(MissingApiKey)
    ensures env.getBaseOrName(opts.releasePath) != "" && opts.apiKey != ""
         && GetCategory(opts.category, env.getBaseOrName(opts.releasePath)) == ""
        ==> ReleaseOutcome(env, opts) == Refused(InvalidCategory)
  {
  }

  /** Nothing is uploaded without a release name, an API key and a valid
      category; an explicit category that is not one of the eight refuses
      the release. */
  lemma UploadsNeedKeyAndCategory(env: Env, opts: Options)
    ensures !ReleaseOutcome(env, opts).Refused? ==>
      env.getBaseOrName(opts.releasePath) != "" && opts.apiKey != ""
      && GetCategory(opts.category, env.getBaseOrName(opts.releasePath)) in ValidCategories
    ensures opts.category != "" && opts.category !in ValidCategories ==> ReleaseOutcome(env, opts).Refused?
  {
  }

  /** With the audiobook rule as the source spells it, a release named
      "Hörbuch" that is given no category is refused for want of one. */
  lemma HoerbuchReleaseRefused(env: Env, opts: Options)
    requires env.getBaseOrName(opts.releasePath) == HoerbuchName
    requires opts.apiKey != "" && opts.category == ""
    ensures ReleaseOutcome(env, opts) == Refused(InvalidCategory)
  {
    AsWrittenMissesHoerbuch(HoerbuchName);
    FatalChecksInOrder(env, opts);
  }

  /** A single release is uploaded under its name, key and category, and
      every request carries that category. */
  lemma SingleReleaseSendsCategory(env: Env, opts: Options, releaseName: string, category: string, mediaInfoPath: string)
    requires category != ""
    ensures var r := SingleReleaseOutcome(env, opts, releaseName, category, mediaInfoPath);
      r.ReleaseUploaded? ==> forall a :: a in r.attempts ==> SendsCategory(a, category)
  {
    var r := SingleReleaseOutcome(env, opts, releaseName, category, mediaInfoPath);
    if r.ReleaseUploaded? {
      AssetsSendCategory(env, r.job);
    }
  }

  /** Each request of a season pack carries the release's category. */
  lemma SeasonReleaseSendsCategory(env: Env, job: SeasonJob)
    requires job.category != ""
    ensures var r := SeasonReleaseOutcome(env, job);
      r.SeasonPackProcessed? ==>
        forall o :: o in r.outcomes && o.EpisodeUploaded? ==> forall a :: a in o.attempts ==> SendsCategory(a, job.category)
  {
    var videos := env.findAllVideoFiles(job.releasePath);
    if videos.Ok? && |videos.value| > 0 {
      var episodes := KeptEpisodes(env, videos.value, job.releaseName, env.findGeneralNfo(job.releasePath));
      SeasonSendsCategory(env, job, episodes);
      var outcomes := SeasonOutcomes(env, job, episodes);
      forall o | o in outcomes && o.EpisodeUploaded?
        ensures forall a :: a in o.attempts ==> SendsCategory(a, job.category)
      {
        var k :| 0 <= k < |outcomes| && outcomes[k] == o;
      }
    }
  }

  /** Whatever ProcessRelease uploads, in either mode, carries a valid
      category, the one getCategory resolved. */
  lemma ReleaseSendsCategory(env: Env, opts: Options)
    ensures var r := ReleaseOutcome(env, opts);
      var category := GetCategory(opts.category, env.getBaseOrName(opts.releasePath));
      (!r.Refused? ==> category in ValidCategories)
      && (r.ReleaseUploaded? ==> r.job.category == category && forall a :: a in r.attempts ==> SendsCategory(a, category))
      && (r.SeasonPackProcessed? ==>
            forall o :: o in r.outcomes && o.EpisodeUploaded? ==> forall a :: a in o.attempts ==> SendsCategory(a, category))
  {
    var r := ReleaseOutcome(env, opts);
    if !r.Refused? {
      var releaseName := env.getBaseOrName(opts.releasePath);
      var category := GetCategory(opts.category, releaseName);
      var mediaInfoPath := CheckMediaInfoAvailable(opts.mediaInfoPath, env.lookPath);
      ReleaseModes(env, opts);
      SingleReleaseSendsCategory(env, opts, releaseName, category, mediaInfoPath);
      SeasonReleaseSendsCategory(env, SeasonJobOf(opts, releaseName, category, mediaInfoPath));
    }
  }

  /** In single-release mode a hash problem is fatal: a stat error or a
      failed SHA-256 refuses the release before anything is uploaded. */
  lemma SingleReleaseHashErrorIsFatal(env: Env, opts: Options, mediaFile: string)
    requires env.getBaseOrName(opts.releasePath) != "" && opts.apiKey != ""
    requires GetCategory(opts.category, env.getBaseOrName(opts.releasePath)) != ""
    requires !IsSeasonPackRelease(env, opts.releasePath, env.getBaseOrName(opts.releasePath))
    requires ResolveMediaFile(env, opts.releasePath) == Some(mediaFile)
    ensures opts.maxHashFileSize > 0 && env.fileSize(mediaFile).Err? ==>
      ReleaseOutcome(env, opts) == Refused(StatFailed(env.fileSize(mediaFile).error))
    ensures ShouldCalculateHash(opts.maxHashFileSize, env.fileSize(mediaFile)).hash && env.sha256(mediaFile).Err? ==>
      ReleaseOutcome(env, opts) == Refused(HashFailed(env.sha256(mediaFile).error))
  {
  }

  /** With hashing switched off (a negative limit), a single release whose
      media file is found is always uploaded, without a hash and with the
      MediaInfo JSON the release calls for. */
  lemma SingleReleaseWithoutHashing(env: Env, opts: Options, releaseName: string, category: string, mediaInfoPath: string)
    requires opts.maxHashFileSize < 0 && ResolveMediaFile(env, opts.releasePath).Some?
    ensures var r := SingleReleaseOutcome(env, opts, releaseName, category, mediaInfoPath);
      r.ReleaseUploaded? && r.job.hash == ""
      && r.job.mediaInfoJson == ReleaseMediaInfo(env, opts, mediaInfoPath, ResolveMediaFile(env, opts.releasePath).value)
  {
  }

  /** The same stat error that is fatal for a single release is only logged
      in a season pack. */
  lemma StatErrorFatalOnlyForSingleRelease(env: Env, opts: Options)
    requires env.getBaseOrName(opts.releasePath) != "" && opts.apiKey != ""
    requires GetCategory(opts.category, env.getBaseOrName(opts.releasePath)) != ""
    requires opts.maxHashFileSize > 0 && env.fileSize(opts.releasePath).Err?
    requires env.findAllVideoFiles(opts.releasePath).Ok?
    requires IsSeasonPackRelease(env, opts.releasePath, env.getBaseOrName(opts.releasePath))
    ensures ReleaseOutcome(env, opts).SeasonPackProcessed?
    ensures forall o :: o in ReleaseOutcome(env, opts).outcomes ==> o.EpisodeUploaded? && o.hash == ""
  {
    var releaseName := env.getBaseOrName(opts.releasePath);
    var category := GetCategory(opts.category, releaseName);
    var mediaInfoPath := CheckMediaInfoAvailable(opts.mediaInfoPath, env.lookPath);
    var job := SeasonJobOf(opts, releaseName, category, mediaInfoPath);
    var videos := env.findAllVideoFiles(opts.releasePath).value;
    var episodes := KeptEpisodes(env, videos, releaseName, env.findGeneralNfo(opts.releasePath));
    StatErrorStillUploads(env, job, episodes);
  }

  /** MediaInfo JSON given in the options is uploaded as it is, and so is the
      absence of any JSON when the tool is not found. */
  lemma ProvidedMediaInfoIsUsed(env: Env, opts: Options, releaseName: string, category: string)
    ensures var mediaInfoPath := CheckMediaInfoAvailable(opts.mediaInfoPath, env.lookPath);
      var r := SingleReleaseOutcome(env, opts, releaseName, category, mediaInfoPath);
      r.ReleaseUploaded? && (|opts.mediaInfoJson| > 0 || !env.lookPath(if opts.mediaInfoPath == "" then DefaultMediaInfo else opts.mediaInfoPath))
      ==> r.job.mediaInfoJson == opts.mediaInfoJson
  {
  }
}
