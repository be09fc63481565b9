/** `YouTubeService.download`: name and create a fresh output directory,
    fetch the metadata, derive the file name from the title, choose the
    format expression, run the extractor, look for the produced file in a
    fixed extension order and build the result record.  Every failure comes
    back as a ValueError prefixed with "Failed to download video: ". */
module DownloadService {
  import opened Common
  import opened Text
  import opened PosixPath
  import opened FileSystem
  import opened Config
  import opened VideoRef
  import opened Schemas
  import opened YdlOptions
  import opened Extractor
  import opened VideoInfoService
  import opened FileName

  const DownloadErrorPrefix: string := "Failed to download video: "

  /** `str(e)` of the TypeError `re.sub` raises when the title is None.  The
      exact wording depends on the Python version; this is the 3.12 one. */
  const NoneTitleMessage: string := "expected string or bytes-like object, got 'NoneType'"

  const FileNotFoundMessage: string := "Download failed: Could not find downloaded file"

  /** The ValueError every failure of `download` is re-raised as. */
  function DownloadError(detail: string): (e: Exc)
    ensures e.kind == ValueError && StartsWith(e.msg, DownloadErrorPrefix)
    ensures e.msg[|DownloadErrorPrefix|..] == detail
  {
    var m := DownloadErrorPrefix + detail;
    assert m[..|DownloadErrorPrefix|] == DownloadErrorPrefix;
    Exc(ValueError, m)
  }

  /** The four readings of the wall clock, already truncated where the
      service truncates: the second at which the directory is named, the
      difference of the readings before and after the download call, and
      the second at which the expiry is computed. */
  datatype Clock = Clock(dirSecond: nat, elapsed: real, doneSecond: nat)

  /** `f"{video_id}_{int(time.time())}"`. */
  function DownloadId(videoId: string, second: nat): string
  {
    videoId + "_" + NatToString(second)
  }

  /** Two downloads get the same directory name only for the same video in
      the same second. */
  lemma DownloadIdInjective(a: string, s: nat, b: string, t: nat)
    requires IsVideoId(a) && IsVideoId(b)
    requires DownloadId(a, s) == DownloadId(b, t)
    ensures a == b && s == t
  {
    var x := DownloadId(a, s);
    assert x[..11] == a;
    assert DownloadId(b, t)[..11] == b;
    assert x[12..] == NatToString(s);
    assert DownloadId(b, t)[12..] == NatToString(t);
    NatToStringInjective(s, t);
  }

  const AudioFormatExpr: string := "bestaudio/best"

  const AudioPostprocessor: Postprocessor := Postprocessor("FFmpegExtractAudio", "mp3", "192")

  /** `f'bestvideo[height<={h}]+bestaudio/best[height<={h}]'`. */
  function BoundedFormat(h: nat): string
  {
    "bestvideo[height<=" + NatToString(h) + "]+bestaudio/best[height<=" + NatToString(h) + "]"
  }

  /** A `format_id` that Python treats as true. */
  predicate GivenFormat(formatId: Option<string>)
  {
    formatId.Some? && formatId.value != ""
  }

  /** The format expression passed to the extractor: audio first, then a
      given format id, then the height-bounded default. */
  function ChosenFormat(audioOnly: bool, formatId: Option<string>, settings: Settings): string
    requires ValidResolution(settings.maxResolution)
  {
    if audioOnly then AudioFormatExpr
    else if GivenFormat(formatId) then formatId.value
    else BoundedFormat(MaxHeight(settings))
  }

  /** `format_id or download_options['format']`: the format reported in the
      result. */
  function ReportedFormat(formatId: Option<string>, chosen: string): string
  {
    if GivenFormat(formatId) then formatId.value else chosen
  }

  /** The output template: the file name with the extractor's extension. */
  function OutputTemplate(outputPath: string, filename: string): string
  {
    Join(outputPath, filename + ".%(ext)s")
  }

  /** The branch on `audio_only` and `format_id` that completes the download
      options: `format` is set to the chosen expression, audio also asks for
      the mp3 post-processing step, and every other key keeps its value. */
  function WithFormat(opts: Options, audioOnly: bool, formatId: Option<string>, settings: Settings): (r: Options)
    requires ValidResolution(settings.maxResolution)
    ensures "format" in r && r["format"] == OStr(ChosenFormat(audioOnly, formatId, settings))
    ensures audioOnly ==> "postprocessors" in r && r["postprocessors"] == OPostprocessors([AudioPostprocessor])
    ensures forall k :: k in r <==> k in opts || k == "format" || (audioOnly && k == "postprocessors")
    ensures forall k :: k in opts && k != "format" && (!audioOnly || k != "postprocessors") ==> r[k] == opts[k]
  {
    var withFormat := opts["format" := OStr(ChosenFormat(audioOnly, formatId, settings))];
    if audioOnly then withFormat["postprocessors" := OPostprocessors([AudioPostprocessor])] else withFormat
  }

  /** The full option dictionary of the download call. */
  function DownloadOptions(outputPath: string, filename: string, audioOnly: bool, formatId: Option<string>,
                           settings: Settings, fs: FileSystem): Options
    requires ValidResolution(settings.maxResolution)
  {
    WithFormat(MergedOptions(Some(map["outtmpl" := OStr(OutputTemplate(outputPath, filename))]), settings, fs),
               audioOnly, formatId, settings)
  }

  /** The same branch, updating the dictionary step by step. */
  method SetFormat(opts: Options, audioOnly: bool, formatId: Option<string>, settings: Settings) returns (r: Options)
    requires ValidResolution(settings.maxResolution)
    ensures r == WithFormat(opts, audioOnly, formatId, settings)
  {
    r := opts;
    if audioOnly {
      r := r["format" := OStr(AudioFormatExpr)];
      r := r["postprocessors" := OPostprocessors([AudioPostprocessor])];
    } else if formatId.Some? && formatId.value != "" {
      r := r["format" := OStr(formatId.value)];
    } else {
      var maxHeight := MaxHeight(settings);
      r := r["format" := OStr(BoundedFormat(maxHeight))];
    }
  }

  /** Format precedence: audio wins over a given format id, which wins over
      the bounded default; post-processing is asked for only for audio, and
      a given format id is what the result reports even when audio won. */
  lemma FormatPrecedence(outputPath: string, filename: string, audioOnly: bool, formatId: Option<string>,
                         settings: Settings, fs: FileSystem)
    requires ValidResolution(settings.maxResolution)
    ensures var opts := DownloadOptions(outputPath, filename, audioOnly, formatId, settings, fs);
      && opts["outtmpl"] == OStr(OutputTemplate(outputPath, filename))
      && (audioOnly ==> opts["format"] == OStr("bestaudio/best")
                        && opts["postprocessors"] == OPostprocessors([Postprocessor("FFmpegExtractAudio", "mp3", "192")]))
      && (!audioOnly ==> "postprocessors" !in opts)
      && (!audioOnly && GivenFormat(formatId) ==> opts["format"] == OStr(formatId.value))
      && (!audioOnly && !GivenFormat(formatId) ==> opts["format"] == OStr(BoundedFormat(MaxHeight(settings))))
    ensures GivenFormat(formatId) ==> ReportedFormat(formatId, ChosenFormat(audioOnly, formatId, settings)) == formatId.value
    ensures !GivenFormat(formatId) ==>
      ReportedFormat(formatId, ChosenFormat(audioOnly, formatId, settings)) == ChosenFormat(audioOnly, formatId, settings)
  {
  }

  /** The extensions looked for, in order. */
  function Extensions(audioOnly: bool): seq<string>
  {
    if audioOnly then ["mp3"] else ["mp4", "webm", "mkv"]
  }

  /** `os.path.join(output_path, f"{filename}.{ext}")`. */
  function Candidate(outputPath: string, filename: string, ext: string): string
  {
    Join(outputPath, filename + "." + ext)
  }

  /** The index of the first extension, from `i` on, whose candidate file
      exists. */
  function FirstExisting(outputPath: string, filename: string, exts: seq<string>, fs: FileSystem, i: nat): (r: Option<nat>)
    requires i <= |exts|
    ensures r.Some? ==> i <= r.value < |exts| && Exists(fs, Candidate(outputPath, filename, exts[r.value]))
    ensures r.Some? ==> forall j :: i <= j < r.value ==> !Exists(fs, Candidate(outputPath, filename, exts[j]))
    ensures r.None? ==> forall j :: i <= j < |exts| ==> !Exists(fs, Candidate(outputPath, filename, exts[j]))
    decreases |exts| - i
  {
    if i == |exts| then None
    else if Exists(fs, Candidate(outputPath, filename, exts[i])) then Some(i)
    else FirstExisting(outputPath, filename, exts, fs, i + 1)
  }

  /** The probing loop with its `break`. */
  method ProbeFile(outputPath: string, filename: string, exts: seq<string>, fs: FileSystem) returns (found: Option<nat>)
    ensures found == FirstExisting(outputPath, filename, exts, fs, 0)
  {
    found := None;
    for i := 0 to |exts|
      invariant forall j :: 0 <= j < i ==> !Exists(fs, Candidate(outputPath, filename, exts[j]))
    {
      var potential := Candidate(outputPath, filename, exts[i]);
      if Exists(fs, potential) {
        found := Some(i);
        break;
      }
    }
    FirstExistingUnique(outputPath, filename, exts, fs, found);
  }

  /** The first existing extension is the only index with the properties
      stated by `FirstExisting`. */
  lemma FirstExistingUnique(outputPath: string, filename: string, exts: seq<string>, fs: FileSystem, k: Option<nat>)
    requires k.Some? ==> k.value < |exts| && Exists(fs, Candidate(outputPath, filename, exts[k.value]))
    requires k.Some? ==> forall j :: 0 <= j < k.value ==> !Exists(fs, Candidate(outputPath, filename, exts[j]))
    requires k.None? ==> forall j :: 0 <= j < |exts| ==> !Exists(fs, Candidate(outputPath, filename, exts[j]))
    ensures k == FirstExisting(outputPath, filename, exts, fs, 0)
  {
    var f := FirstExisting(outputPath, filename, exts, fs, 0);
    if k.Some? && f.Some? {
      if k.value < f.value {
      } else if f.value < k.value {
      }
    }
  }

  /** Where the produced file lies: `DOWNLOAD_PATH/<download id>/<name>.<ext>`. */
  lemma OutputLayout(root: string, videoId: string, second: nat, filename: string, ext: string)
    requires IsNormalAbsPath(root) && IsVideoId(videoId) && '/' !in filename
    ensures Join(root, DownloadId(videoId, second)) == root + "/" + DownloadId(videoId, second)
    ensures Candidate(Join(root, DownloadId(videoId, second)), filename, ext)
      == root + "/" + (DownloadId(videoId, second) + "/" + filename + "." + ext)
    ensures StartsWith(Candidate(Join(root, DownloadId(videoId, second)), filename, ext), root + "/")
  {
    var d := DownloadId(videoId, second);
    NormalHasNoTrailingSlash(root);
    assert d[0] == videoId[0] && IsIdChar(videoId[0]);
    var n := NatToString(second);
    assert d[|d| - 1] == n[|n| - 1] && IsDigit(n[|n| - 1]);
    var name := filename + "." + ext;
    if filename != [] {
      assert name[0] == filename[0];
    } else {
      assert name[0] == '.';
    }
    var full := root + "/" + (d + "/" + name);
    assert full[..|root + "/"|] == root + "/";
  }

  /** The result record for the produced file `<output path>/<name>.<ext>`. */
  function ResultFor(settings: Settings, videoId: string, title: string, filename: string, format: string,
                     audioOnly: bool, clock: Clock, fs: FileSystem, ext: string): DownloadResult
    requires ValidSettings(settings) && IsVideoId(videoId) && '/' !in filename
    requires Exists(fs, Candidate(Join(settings.downloadPath, DownloadId(videoId, clock.dirSecond)), filename, ext))
  {
    var file := Candidate(Join(settings.downloadPath, DownloadId(videoId, clock.dirSecond)), filename, ext);
    OutputLayout(settings.downloadPath, videoId, clock.dirSecond, filename, ext);
    DownloadResult(
      videoId, title, file, RelPathBelow(file, settings.downloadPath), fs.entries[file],
      clock.elapsed, format, clock.doneSecond + settings.fileExpirySeconds, audioOnly, None)
  }

  /** The steps after the download call: look for the produced file and
      build the result record. */
  function Finish(settings: Settings, videoId: string, title: string, filename: string, format: string,
                  audioOnly: bool, clock: Clock, fs: FileSystem): (r: Result<DownloadResult, Exc>)
    requires ValidSettings(settings) && IsVideoId(videoId) && '/' !in filename
    ensures r.Err? <==>
      FirstExisting(Join(settings.downloadPath, DownloadId(videoId, clock.dirSecond)), filename, Extensions(audioOnly), fs, 0).None?
    ensures r.Err? ==> r.error == DownloadError(FileNotFoundMessage)
    ensures r.Err? ==> r.error.kind == ValueError && StartsWith(r.error.msg, DownloadErrorPrefix)
  {
    var outputPath := Join(settings.downloadPath, DownloadId(videoId, clock.dirSecond));
    var exts := Extensions(audioOnly);
    match FirstExisting(outputPath, filename, exts, fs, 0)
    case None => Err(DownloadError(FileNotFoundMessage))
    case Some(k) => Ok(ResultFor(settings, videoId, title, filename, format, audioOnly, clock, fs, exts[k]))
  }

  /** `download(url, format_id, audio_only)` as a definition: the result, or
      the error, and the filesystem afterwards.  `download` is the second
      argument of the library call that is meant to fetch the file: the code
      passes False, so that call writes nothing and the probe sees the
      filesystem as it was before it (`AsWrittenFindsOnlyOldFiles`); with
      true the probe sees what the library wrote. */
  function DownloadOutcome(url: string, formatId: Option<string>, audioOnly: bool, download: bool, settings: Settings,
                           fs: FileSystem, clock: Clock, extract: ExtractFn): (out: (Result<DownloadResult, Exc>, FileSystem))
    requires ValidSettings(settings)
    ensures out.0.Err? ==> out.0.error.kind == ValueError && StartsWith(out.0.error.msg, DownloadErrorPrefix)
  {
    var u := RewriteBareId(url);
    match VideoIdOf(u)
    case None => (Err(DownloadError(NoIdError(u).msg)), fs)
    case Some(videoId) =>
      var outputPath := Join(settings.downloadPath, DownloadId(videoId, clock.dirSecond));
      var fs1 := MakeDirs(fs, outputPath);
      match VideoInfoOutcome(u, settings, fs1, extract)
      case Err(e) => (Err(DownloadError(e.msg)), fs1)
      case Ok(info) =>
        match info.title
        case None => (Err(DownloadError(NoneTitleMessage)), fs1)
        case Some(title) =>
          var filename := Sanitize(title);
          var opts := DownloadOptions(outputPath, filename, audioOnly, formatId, settings, fs1);
          var call := extract(u, opts, download, fs1);
          var fs2 := if download then call.1 else fs1;
          if call.0.Raised? then (Err(DownloadError(call.0.e.msg)), fs2)
          else
            SanitizeNoSlash(title);
            (Finish(settings, videoId, title, filename, ReportedFormat(formatId, ChosenFormat(audioOnly, formatId, settings)),
                    audioOnly, clock, fs2), fs2)
  }

  /** `download`, step by step. */
  method Download(url: string, formatId: Option<string>, audioOnly: bool, download: bool, settings: Settings,
                  fs: FileSystem, clock: Clock, extract: ExtractFn)
    returns (r: Result<DownloadResult, Exc>, fsAfter: FileSystem)
    requires ValidSettings(settings)
    ensures (r, fsAfter) == DownloadOutcome(url, formatId, audioOnly, download, settings, fs, clock, extract)
  {
    var u := url;
    if MatchesBareId(u) {
      u := CanonicalUrl(u);
    }
    var extracted := ExtractVideoId(u);
    if extracted.Err? {
      return Err(DownloadError(extracted.error.msg)), fs;
    }
    var videoId := extracted.value;
    var downloadId := DownloadId(videoId, clock.dirSecond);
    var outputPath := Join(settings.downloadPath, downloadId);
    fsAfter := MakeDirs(fs, outputPath);
    var videoInfo := GetVideoInfo(u, settings, fsAfter, extract);
    if videoInfo.Err? {
      return Err(DownloadError(videoInfo.error.msg)), fsAfter;
    }
    var title := videoInfo.value.title;
    if title.None? {
      return Err(DownloadError(NoneTitleMessage)), fsAfter;
    }
    var filename := Sanitize(title.value);
    var downloadOptions := GetYdlOptions(Some(map["outtmpl" := OStr(OutputTemplate(outputPath, filename))]), settings, fsAfter);
    downloadOptions := SetFormat(downloadOptions, audioOnly, formatId, settings);
    assert downloadOptions == DownloadOptions(outputPath, filename, audioOnly, formatId, settings, fsAfter);
    var call := extract(u, downloadOptions, download, fsAfter);
    var outcome := call.0;
    if download {
      fsAfter := call.1;
    }
    if outcome.Raised? {
      return Err(DownloadError(outcome.e.msg)), fsAfter;
    }
    var format := if formatId.Some? && formatId.value != "" then formatId.value else downloadOptions["format"].s;
    SanitizeNoSlash(title.value);
    r := FinishDownload(settings, videoId, title.value, filename, format, audioOnly, clock, fsAfter);
  }

  /** The probe for the produced file and the result record (the tail of
      `download`). */
  method FinishDownload(settings: Settings, videoId: string, title: string, filename: string, format: string,
                        audioOnly: bool, clock: Clock, fs: FileSystem) returns (r: Result<DownloadResult, Exc>)
    requires ValidSettings(settings) && IsVideoId(videoId) && '/' !in filename
    ensures r == Finish(settings, videoId, title, filename, format, audioOnly, clock, fs)
  {
    var outputPath := Join(settings.downloadPath, DownloadId(videoId, clock.dirSecond));
    var exts := Extensions(audioOnly);
    var found := ProbeFile(outputPath, filename, exts, fs);
    if found.None? {
      return Err(DownloadError(FileNotFoundMessage));
    }
    var downloadedFile := Candidate(outputPath, filename, exts[found.value]);
    var fileSize := fs.entries[downloadedFile];
    OutputLayout(settings.downloadPath, videoId, clock.dirSecond, filename, exts[found.value]);
    var relativePath := RelPathBelow(downloadedFile, settings.downloadPath);
    r := Ok(DownloadResult(videoId, title, downloadedFile, relativePath, fileSize, clock.elapsed,
                           format, clock.doneSecond + settings.fileExpirySeconds, audioOnly, None));
    assert r.value == ResultFor(settings, videoId, title, filename, format, audioOnly, clock, fs, exts[found.value]);
  }

  /** The layout of a successful download: the file is the first existing
      candidate in `DOWNLOAD_PATH/<id>_<second>/<sanitized title>.<ext>`, its
      relative path joined onto the download root gives it back, its size is
      the size on the filesystem, and it expires a fixed time after
      completion. */
  lemma DownloadResultLayout(url: string, formatId: Option<string>, audioOnly: bool, download: bool, settings: Settings,
                             fs: FileSystem, clock: Clock, extract: ExtractFn)
    requires ValidSettings(settings)
    requires DownloadOutcome(url, formatId, audioOnly, download, settings, fs, clock, extract).0.Ok?
    ensures var (r, fs') := DownloadOutcome(url, formatId, audioOnly, download, settings, fs, clock, extract);
      var res := r.value;
      var k := FirstExisting(Join(settings.downloadPath, DownloadId(res.id, clock.dirSecond)), Sanitize(res.title),
                             Extensions(audioOnly), fs', 0);
      && IsVideoId(res.id) && Some(res.id) == VideoIdOf(RewriteBareId(url))
      && k.Some?
      && res.relativePath == DownloadId(res.id, clock.dirSecond) + "/" + Sanitize(res.title) + "." + Extensions(audioOnly)[k.value]
      && Join(settings.downloadPath, res.relativePath) == res.filePath
      && StartsWith(res.filePath, settings.downloadPath + "/")
      && Exists(fs', res.filePath) && res.fileSize == fs'.entries[res.filePath]
      && res.expiryTime == clock.doneSecond + settings.fileExpirySeconds
      && res.audioOnly == audioOnly && res.downloadUrl.None?
      && res.format == ReportedFormat(formatId, ChosenFormat(audioOnly, formatId, settings))
  {
    var u := RewriteBareId(url);
    var videoId := VideoIdOf(u).value;
    var outputPath := Join(settings.downloadPath, DownloadId(videoId, clock.dirSecond));
    var fs1 := MakeDirs(fs, outputPath);
    var title := VideoInfoOutcome(u, settings, fs1, extract).value.title.value;
    var filename := Sanitize(title);
    var opts := DownloadOptions(outputPath, filename, audioOnly, formatId, settings, fs1);
    var fs2 := if download then extract(u, opts, download, fs1).1 else fs1;
    var format := ReportedFormat(formatId, ChosenFormat(audioOnly, formatId, settings));
    SanitizeNoSlash(title);
    assert DownloadOutcome(url, formatId, audioOnly, download, settings, fs, clock, extract)
      == (Finish(settings, videoId, title, filename, format, audioOnly, clock, fs2), fs2);
    FinishLayout(settings, videoId, title, filename, format, audioOnly, clock, fs2);
  }

  /** The record `Finish` builds: the first existing candidate, with its
      relative path below the root and its size. */
  lemma FinishLayout(settings: Settings, videoId: string, title: string, filename: string, format: string,
                     audioOnly: bool, clock: Clock, fs: FileSystem)
    requires ValidSettings(settings) && IsVideoId(videoId) && '/' !in filename
    requires Finish(settings, videoId, title, filename, format, audioOnly, clock, fs).Ok?
    ensures var res := Finish(settings, videoId, title, filename, format, audioOnly, clock, fs).value;
      var k := FirstExisting(Join(settings.downloadPath, DownloadId(videoId, clock.dirSecond)), filename,
                             Extensions(audioOnly), fs, 0);
      && res.id == videoId && res.title == title
      && k.Some?
      && res.relativePath == DownloadId(videoId, clock.dirSecond) + "/" + filename + "." + Extensions(audioOnly)[k.value]
      && Join(settings.downloadPath, res.relativePath) == res.filePath
      && StartsWith(res.filePath, settings.downloadPath + "/")
      && Exists(fs, res.filePath) && res.fileSize == fs.entries[res.filePath]
      && res.expiryTime == clock.doneSecond + settings.fileExpirySeconds
      && res.audioOnly == audioOnly && res.downloadUrl.None? && res.format == format
  {
    var outputPath := Join(settings.downloadPath, DownloadId(videoId, clock.dirSecond));
    var exts := Extensions(audioOnly);
    var k := FirstExisting(outputPath, filename, exts, fs, 0).value;
    ResultForLayout(settings, videoId, title, filename, format, audioOnly, clock, fs, exts[k]);
  }

  lemma ResultForLayout(settings: Settings, videoId: string, title: string, filename: string, format: string,
                        audioOnly: bool, clock: Clock, fs: FileSystem, ext: string)
    requires ValidSettings(settings) && IsVideoId(videoId) && '/' !in filename
    requires Exists(fs, Candidate(Join(settings.downloadPath, DownloadId(videoId, clock.dirSecond)), filename, ext))
    ensures var res := ResultFor(settings, videoId, title, filename, format, audioOnly, clock, fs, ext);
      && res.id == videoId && res.title == title
      && res.relativePath == DownloadId(videoId, clock.dirSecond) + "/" + filename + "." + ext
      && Join(settings.downloadPath, res.relativePath) == res.filePath
      && StartsWith(res.filePath, settings.downloadPath + "/")
      && Exists(fs, res.filePath) && res.fileSize == fs.entries[res.filePath]
      && res.expiryTime == clock.doneSecond + settings.fileExpirySeconds
      && res.audioOnly == audioOnly && res.downloadUrl.None? && res.format == format
  {
    OutputLayout(settings.downloadPath, videoId, clock.dirSecond, filename, ext);
    var rel := DownloadId(videoId, clock.dirSecond) + "/" + filename + "." + ext;
    var file := Candidate(Join(settings.downloadPath, DownloadId(videoId, clock.dirSecond)), filename, ext);
    assert RelPathBelow(file, settings.downloadPath) == rel;
    assert rel[0] != '/' by {
      assert rel[0] == videoId[0];
    }
  }

  lemma DownloadIdHasNoSlash(videoId: string, second: nat)
    requires IsVideoId(videoId)
    ensures '/' !in DownloadId(videoId, second)
  {
    var d := DownloadId(videoId, second);
    forall i | 0 <= i < |d| ensures d[i] != '/' {
      if i < 11 {
        assert d[i] == videoId[i];
      } else if i > 11 {
        assert d[i] == NatToString(second)[i - 12];
      }
    }
  }

  /** The output directory is created before the metadata is fetched: when
      the metadata request fails, or the title is None, the directory is
      left behind and nothing else changed. */
  lemma DirectoryBeforeMetadata(url: string, formatId: Option<string>, audioOnly: bool, download: bool, settings: Settings,
                                fs: FileSystem, clock: Clock, extract: ExtractFn)
    requires ValidSettings(settings)
    requires VideoIdOf(RewriteBareId(url)).Some?
    ensures var u := RewriteBareId(url);
      var outputPath := Join(settings.downloadPath, DownloadId(VideoIdOf(u).value, clock.dirSecond));
      var info := VideoInfoOutcome(u, settings, MakeDirs(fs, outputPath), extract);
      (info.Err? || info.value.title.None?) ==>
        && DownloadOutcome(url, formatId, audioOnly, download, settings, fs, clock, extract).1 == MakeDirs(fs, outputPath)
        && Exists(DownloadOutcome(url, formatId, audioOnly, download, settings, fs, clock, extract).1, outputPath)
        && DownloadOutcome(url, formatId, audioOnly, download, settings, fs, clock, extract).0.Err?
  {
  }

  /** A reference from which no ID can be extracted fails before anything is
      created, with the extraction message (not the metadata one). */
  lemma NoIdNoDirectory(url: string, formatId: Option<string>, audioOnly: bool, download: bool, settings: Settings,
                        fs: FileSystem, clock: Clock, extract: ExtractFn)
    requires ValidSettings(settings)
    requires VideoIdOf(RewriteBareId(url)).None?
    ensures DownloadOutcome(url, formatId, audioOnly, download, settings, fs, clock, extract).1 == fs
    ensures DownloadOutcome(url, formatId, audioOnly, download, settings, fs, clock, extract).0
      == Err(DownloadError(NoIdError(RewriteBareId(url)).msg))
  {
  }
  /** A title that holds None is kept as None by the metadata mapping (the
      default "Unknown Title" is only for a missing key), and the download
      then fails in the sanitizer with the TypeError text, leaving only the
      output directory behind. */
  lemma NoneTitleFailsDownload(url: string, formatId: Option<string>, audioOnly: bool, download: bool,
                               settings: Settings, fs: FileSystem, clock: Clock, extract: ExtractFn, info: InfoDict)
    requires ValidSettings(settings)
    requires VideoIdOf(RewriteBareId(url)).Some?
    requires info.title.Null?
    requires var u := RewriteBareId(url);
      var fs1 := MakeDirs(fs, Join(settings.downloadPath, DownloadId(VideoIdOf(u).value, clock.dirSecond)));
      extract(u, MergedOptions(Some(InfoExtras), settings, fs1), false, fs1).0 == Returned(Some(info))
    ensures var u := RewriteBareId(url);
      var fs1 := MakeDirs(fs, Join(settings.downloadPath, DownloadId(VideoIdOf(u).value, clock.dirSecond)));
      && VideoInfoOutcome(u, settings, fs1, extract).Ok?
      && VideoInfoOutcome(u, settings, fs1, extract).value.title.None?
      && DownloadOutcome(url, formatId, audioOnly, download, settings, fs, clock, extract)
         == (Err(DownloadError(NoneTitleMessage)), fs1)
  {
  }

  /** As written (`download` false) the filesystem after a download that got
      past the ID check is the one with the output directory added, whatever
      the library did. */
  lemma AsWrittenOnlyMakesDirectory(url: string, formatId: Option<string>, audioOnly: bool, settings: Settings,
                                    fs: FileSystem, clock: Clock, extract: ExtractFn)
    requires ValidSettings(settings)
    requires VideoIdOf(RewriteBareId(url)).Some?
    ensures DownloadOutcome(url, formatId, audioOnly, false, settings, fs, clock, extract).1
      == MakeDirs(fs, Join(settings.downloadPath, DownloadId(VideoIdOf(RewriteBareId(url)).value, clock.dirSecond)))
  {
  }

  /** As written, a download succeeds only by finding a file that existed
      before the request. */
  lemma AsWrittenFindsOnlyOldFiles(url: string, formatId: Option<string>, audioOnly: bool, settings: Settings,
                                   fs: FileSystem, clock: Clock, extract: ExtractFn)
    requires ValidSettings(settings)
    requires DownloadOutcome(url, formatId, audioOnly, false, settings, fs, clock, extract).0.Ok?
    ensures var res := DownloadOutcome(url, formatId, audioOnly, false, settings, fs, clock, extract).0.value;
      Exists(fs, res.filePath) && StartsWith(res.filePath, settings.downloadPath + "/")
  {
    var out := DownloadOutcome(url, formatId, audioOnly, false, settings, fs, clock, extract);
    DownloadResultLayout(url, formatId, audioOnly, false, settings, fs, clock, extract);
    AsWrittenOnlyMakesDirectory(url, formatId, audioOnly, settings, fs, clock, extract);
    var res := out.0.value;
    var k := FirstExisting(Join(settings.downloadPath, DownloadId(res.id, clock.dirSecond)), Sanitize(res.title),
                           Extensions(audioOnly), out.1, 0).value;
    SanitizeNoSlash(res.title);
    OldFileBelowDirectory(settings.downloadPath, res.id, clock.dirSecond, Sanitize(res.title), Extensions(audioOnly)[k],
                          res.relativePath, res.filePath, fs, out.1);
  }

  /** A file laid out below the output directory is not the directory
      itself, so when it exists after the directory was made it existed
      before. */
  lemma OldFileBelowDirectory(root: string, videoId: string, second: nat, filename: string, ext: string,
                              rel: string, file: string, fs: FileSystem, fs': FileSystem)
    requires IsNormalAbsPath(root) && IsVideoId(videoId) && '/' !in filename
    requires rel == DownloadId(videoId, second) + "/" + filename + "." + ext && Join(root, rel) == file
    requires fs' == MakeDirs(fs, Join(root, DownloadId(videoId, second))) && Exists(fs', file)
    ensures Exists(fs, file)
  {
    OutputLayout(root, videoId, second, filename, ext);
    NormalHasNoTrailingSlash(root);
    assert rel[0] == videoId[0];
    assert file == root + "/" + rel;
    assert |file| > |root + "/" + DownloadId(videoId, second)|;
  }

  /** The counterexample: as written, a download into a root below which
      nothing exists yet always fails, whatever the library returns. */
  lemma AsWrittenFailsOnEmptyRoot(url: string, formatId: Option<string>, audioOnly: bool, settings: Settings,
                                  fs: FileSystem, clock: Clock, extract: ExtractFn)
    requires ValidSettings(settings)
    requires forall p :: p in fs.entries ==> !StartsWith(p, settings.downloadPath + "/")
    ensures DownloadOutcome(url, formatId, audioOnly, false, settings, fs, clock, extract).0.Err?
  {
    var out := DownloadOutcome(url, formatId, audioOnly, false, settings, fs, clock, extract);
    if out.0.Ok? {
      AsWrittenFindsOnlyOldFiles(url, formatId, audioOnly, settings, fs, clock, extract);
      assert false;
    }
  }

  /** With `download` true the file the library writes is the one reported:
      when the call writes the first expected candidate, the download
      succeeds with that file on the filesystem the call left. */
  lemma DownloadFindsWrittenFile(url: string, formatId: Option<string>, audioOnly: bool, settings: Settings,
                                 fs: FileSystem, clock: Clock, extract: ExtractFn, title: string)
    requires ValidSettings(settings)
    requires VideoIdOf(RewriteBareId(url)).Some?
    requires var u := RewriteBareId(url);
      var outputPath := Join(settings.downloadPath, DownloadId(VideoIdOf(u).value, clock.dirSecond));
      var fs1 := MakeDirs(fs, outputPath);
      var call := extract(u, DownloadOptions(outputPath, Sanitize(title), audioOnly, formatId, settings, fs1), true, fs1);
      && VideoInfoOutcome(u, settings, fs1, extract).Ok?
      && VideoInfoOutcome(u, settings, fs1, extract).value.title == Some(title)
      && call.0.Returned?
      && Exists(call.1, Candidate(outputPath, Sanitize(title), Extensions(audioOnly)[0]))
    ensures var u := RewriteBareId(url);
      var outputPath := Join(settings.downloadPath, DownloadId(VideoIdOf(u).value, clock.dirSecond));
      var fs1 := MakeDirs(fs, outputPath);
      var call := extract(u, DownloadOptions(outputPath, Sanitize(title), audioOnly, formatId, settings, fs1), true, fs1);
      var out := DownloadOutcome(url, formatId, audioOnly, true, settings, fs, clock, extract);
      && out.1 == call.1 && out.0.Ok?
      && out.0.value.filePath == Candidate(outputPath, Sanitize(title), Extensions(audioOnly)[0])
  {
    var u := RewriteBareId(url);
    var videoId := VideoIdOf(u).value;
    var outputPath := Join(settings.downloadPath, DownloadId(videoId, clock.dirSecond));
    var fs1 := MakeDirs(fs, outputPath);
    var filename := Sanitize(title);
    var fs2 := extract(u, DownloadOptions(outputPath, filename, audioOnly, formatId, settings, fs1), true, fs1).1;
    var format := ReportedFormat(formatId, ChosenFormat(audioOnly, formatId, settings));
    SanitizeNoSlash(title);
    assert DownloadOutcome(url, formatId, audioOnly, true, settings, fs, clock, extract)
      == (Finish(settings, videoId, title, filename, format, audioOnly, clock, fs2), fs2);
    FinishFirst(settings, videoId, title, filename, format, audioOnly, clock, fs2);
  }

  /** When the first expected candidate exists, `Finish` reports it. */
  lemma FinishFirst(settings: Settings, videoId: string, title: string, filename: string, format: string,
                    audioOnly: bool, clock: Clock, fs: FileSystem)
    requires ValidSettings(settings) && IsVideoId(videoId) && '/' !in filename
    requires Exists(fs, Candidate(Join(settings.downloadPath, DownloadId(videoId, clock.dirSecond)), filename, Extensions(audioOnly)[0]))
    ensures var r := Finish(settings, videoId, title, filename, format, audioOnly, clock, fs);
      r.Ok? && r.value.filePath == Candidate(Join(settings.downloadPath, DownloadId(videoId, clock.dirSecond)), filename, Extensions(audioOnly)[0])
  {
    var outputPath := Join(settings.downloadPath, DownloadId(videoId, clock.dirSecond));
    assert FirstExisting(outputPath, filename, Extensions(audioOnly), fs, 0) == Some(0);
  }
}
