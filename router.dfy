/** The HTTP layer (`routers/youtube.py`): `POST /info`, `POST /download`
    and `GET /file/{file_path:path}`.  Request bodies are validated before a
    handler runs; service failures become HTTP errors; a served file gets its
    content type from its suffix and a Content-Disposition header with its
    base name. */
module Router {
  import opened Common
  import opened Text
  import opened PosixPath
  import opened FileSystem
  import opened Config
  import opened VideoRef
  import opened Schemas
  import opened Extractor
  import opened VideoInfoService
  import opened DownloadService
  import opened FileName

  /** An `HTTPException` leaving the application. */
  datatype HttpError = HttpError(status: nat, detail: string)

  /** What `FileResponse(path=..., media_type=..., headers=..., filename=...)`
      is built from. */
  datatype FileReply = FileReply(path: string, mediaType: string, filename: string, contentDisposition: string)

  const InfoFailurePrefix: string := "Failed to get video info: "
  const DownloadFailurePrefix: string := "Failed to download video: "
  const ServeFailurePrefix: string := "Error serving file: "
  const NotFoundDetail: string := "File not found or expired"

  /** `except ValueError` gives 400 with the message; `except Exception`
      gives 500 with the handler's prefix. */
  function ServiceFailure(e: Exc, prefix: string): (h: HttpError)
    ensures h.status == 400 <==> e.kind == ValueError
    ensures h.status == 400 || h.status == 500
    ensures e.kind == ValueError ==> h.detail == e.msg
    ensures e.kind != ValueError ==> StartsWith(h.detail, prefix) && h.detail[|prefix|..] == e.msg
  {
    if e.kind == ValueError then HttpError(400, e.msg)
    else
      assert (prefix + e.msg)[..|prefix|] == prefix;
      HttpError(500, prefix + e.msg)
  }

  /** The handler of `serve_file`: an `HTTPException` is re-raised as it is,
      anything else becomes 500 "Error serving file: ...". */
  function ServeFailure(e: Exc): (h: HttpError)
    ensures e.kind.HTTPException? ==> h == HttpError(e.kind.status, e.msg)
    ensures !e.kind.HTTPException? ==>
      h.status == 500 && StartsWith(h.detail, ServeFailurePrefix)
      && h.detail[|ServeFailurePrefix|..] == e.msg
  {
    match e.kind
    case HTTPException(status) => HttpError(status, e.msg)
    case _ =>
      assert (ServeFailurePrefix + e.msg)[..|ServeFailurePrefix|] == ServeFailurePrefix;
      HttpError(500, ServeFailurePrefix + e.msg)
  }

  /** The media type chosen from the suffix of the joined path. */
  function ContentType(path: string): (t: string)
    ensures t == "video/mp4" <==> EndsWith(path, ".mp4")
    ensures t == "audio/mpeg" <==> !EndsWith(path, ".mp4") && EndsWith(path, ".mp3")
    ensures t == "application/octet-stream" <==> !EndsWith(path, ".mp4") && !EndsWith(path, ".mp3")
  {
    if EndsWith(path, ".mp4") then "video/mp4"
    else if EndsWith(path, ".mp3") then "audio/mpeg"
    else "application/octet-stream"
  }

  const DispositionPrefix: string := "attachment; filename=\""

  /** The Content-Disposition header: the name can be read back from between
      the quotes. */
  function ContentDisposition(name: string): (h: string)
    ensures StartsWith(h, DispositionPrefix) && |h| == |DispositionPrefix| + |name| + 1
    ensures h[|DispositionPrefix|..|h| - 1] == name && h[|h| - 1] == '"'
  {
    var h := DispositionPrefix + name + "\"";
    assert h[..|DispositionPrefix|] == DispositionPrefix;
    assert h[|DispositionPrefix|..|h| - 1] == name;
    h
  }

  /** `serve_file(file_path)`: join the requested path onto the download
      root, answer 404 when nothing exists there, and otherwise reply with
      that path, its content type and its base name. */
  function ServeFile(filePath: string, settings: Settings, fs: FileSystem): (r: Result<FileReply, HttpError>)
    ensures r.Ok? <==> Exists(fs, Join(settings.downloadPath, filePath))
    ensures r.Err? ==> r.error == HttpError(404, NotFoundDetail)
    ensures r.Ok? ==> var full := Join(settings.downloadPath, filePath);
      && r.value.path == full && r.value.mediaType == ContentType(full)
      && r.value.filename == Basename(full) && '/' !in r.value.filename && EndsWith(full, r.value.filename)
      && r.value.contentDisposition == ContentDisposition(r.value.filename)
  {
    var full := Join(settings.downloadPath, filePath);
    if !Exists(fs, full) then Err(ServeFailure(Exc(HTTPException(404), NotFoundDetail)))
    else
      var name := Basename(full);
      Ok(FileReply(full, ContentType(full), name, ContentDisposition(name)))
  }

  /** `f"{base_url.rstrip('/')}{API_V1_STR}/file/{relative_path}"`. */
  function DownloadUrl(baseUrl: string, settings: Settings, relativePath: string): (u: string)
    ensures StartsWith(u, FileRoute(baseUrl, settings)) && u[|FileRoute(baseUrl, settings)|..] == relativePath
  {
    var u := FileRoute(baseUrl, settings) + relativePath;
    assert u[..|FileRoute(baseUrl, settings)|] == FileRoute(baseUrl, settings);
    u
  }

  /** The URL prefix under which `serve_file` is mounted. */
  function FileRoute(baseUrl: string, settings: Settings): (p: string)
    ensures EndsWith(p, "/file/") && StartsWith(p, RStrip(baseUrl, '/'))
  {
    var b := RStrip(baseUrl, '/');
    var p := b + settings.apiV1Str + "/file/";
    assert p[|p| - 6..] == "/file/";
    assert p[..|b|] == b;
    p
  }

  /** `POST /info` as a definition: a body whose url fails the validator is
      rejected with 422 before the handler runs; otherwise the service is
      called with the validated url and its failures are mapped. */
  function InfoResponse(rawUrl: string, settings: Settings, fs: FileSystem, extract: ExtractFn): (r: Result<VideoInfo, HttpError>)
    requires ValidResolution(settings.maxResolution)
    ensures ValidateYoutubeUrl(rawUrl).Err? ==> r == Err(HttpError(422, InvalidReference))
    ensures ValidateYoutubeUrl(rawUrl).Ok? ==>
      var info := VideoInfoOutcome(ValidateYoutubeUrl(rawUrl).value, settings, fs, extract);
      && (info.Ok? ==> r == Ok(info.value))
      && (info.Err? ==> r == Err(HttpError(400, info.error.msg)))
    ensures r.Err? ==> r.error.status == 400 || r.error.status == 422
  {
    match ValidateYoutubeUrl(rawUrl)
    case Err(m) => Err(HttpError(422, m))
    case Ok(u) =>
      match VideoInfoOutcome(u, settings, fs, extract)
      case Err(e) => Err(ServiceFailure(e, InfoFailurePrefix))
      case Ok(info) => Ok(info)
  }

  /** `get_video_info` of the router. */
  method HandleInfo(rawUrl: string, settings: Settings, fs: FileSystem, extract: ExtractFn) returns (r: Result<VideoInfo, HttpError>)
    requires ValidResolution(settings.maxResolution)
    ensures r == InfoResponse(rawUrl, settings, fs, extract)
  {
    var request := ValidateYoutubeUrl(rawUrl);
    if request.Err? {
      return Err(HttpError(422, request.error));
    }
    var videoInfo := GetVideoInfo(request.value, settings, fs, extract);
    if videoInfo.Err? {
      return Err(ServiceFailure(videoInfo.error, InfoFailurePrefix));
    }
    r := Ok(videoInfo.value);
  }

  /** `POST /download` as a definition: the response and the filesystem
      afterwards.  The result is the service's record with `download_url`
      filled in. */
  function DownloadResponse(rawUrl: string, formatId: Option<string>, audioOnly: Option<bool>, baseUrl: string,
                            settings: Settings, fs: FileSystem, clock: Clock, extract: ExtractFn)
    : (out: (Result<DownloadResult, HttpError>, FileSystem))
    requires ValidSettings(settings)
    ensures out.0.Err? && out.0.error.status == 422 <==> NewDownloadRequest(rawUrl, formatId, audioOnly).Err?
    ensures out.0.Err? ==> out.0.error.status == 400 || out.0.error.status == 422
    ensures out.0.Err? && out.0.error.status == 422 ==> out.1 == fs && out.0.error.detail == InvalidReference
    ensures out.0.Ok? ==> out.0.value.downloadUrl == Some(DownloadUrl(baseUrl, settings, out.0.value.relativePath))
  {
    match NewDownloadRequest(rawUrl, formatId, audioOnly)
    case Err(m) => (Err(HttpError(422, m)), fs)
    case Ok(req) => DownloadReply(DownloadOutcome(req.url, req.formatId, req.audioOnly, true, settings, fs, clock, extract),
                                  baseUrl, settings)
  }

  /** The handler's answer to the service's outcome. */
  function DownloadReply(service: (Result<DownloadResult, Exc>, FileSystem), baseUrl: string, settings: Settings)
    : (Result<DownloadResult, HttpError>, FileSystem)
  {
    match service.0
    case Err(e) => (Err(ServiceFailure(e, DownloadFailurePrefix)), service.1)
    case Ok(result) => (Ok(result.(downloadUrl := Some(DownloadUrl(baseUrl, settings, result.relativePath)))), service.1)
  }

  /** `download_video` of the router: the service call, then the in-place
      insertion of `download_url` into the result. */
  method HandleDownload(rawUrl: string, formatId: Option<string>, audioOnly: Option<bool>, baseUrl: string,
                        settings: Settings, fs: FileSystem, clock: Clock, extract: ExtractFn)
    returns (r: Result<DownloadResult, HttpError>, fsAfter: FileSystem)
    requires ValidSettings(settings)
    ensures (r, fsAfter) == DownloadResponse(rawUrl, formatId, audioOnly, baseUrl, settings, fs, clock, extract)
  {
    var request := NewDownloadRequest(rawUrl, formatId, audioOnly);
    if request.Err? {
      return Err(HttpError(422, request.error)), fs;
    }
    var req := request.value;
    var downloadResult;
    downloadResult, fsAfter := Download(req.url, req.formatId, req.audioOnly, true, settings, fs, clock, extract);
    if downloadResult.Err? {
      return Err(ServiceFailure(downloadResult.error, DownloadFailurePrefix)), fsAfter;
    }
    var result := downloadResult.value;
    var downloadUrl := DownloadUrl(baseUrl, settings, result.relativePath);
    result := result.(downloadUrl := Some(downloadUrl));
    r := Ok(result);
  }

  /** Apart from `download_url`, the router returns the service's record
      unchanged, and leaves the filesystem as the service left it. */
  lemma DownloadReplyKeepsResult(service: (Result<DownloadResult, Exc>, FileSystem), baseUrl: string, settings: Settings)
    ensures var out := DownloadReply(service, baseUrl, settings);
      && out.1 == service.1
      && (out.0.Ok? <==> service.0.Ok?)
      && (out.0.Ok? ==> out.0.value == service.0.value.(downloadUrl := Some(out.0.value.downloadUrl.value))
                        && out.0.value.downloadUrl == Some(DownloadUrl(baseUrl, settings, service.0.value.relativePath)))
      && (out.0.Err? && service.0.error.kind == ValueError ==> out.0.error == HttpError(400, service.0.error.msg))
  {
  }

  /** The media type `serve_file` gives a file with a probed extension. */
  function ExtensionMediaType(ext: string): string
  {
    if ext == "mp4" then "video/mp4" else if ext == "mp3" then "audio/mpeg" else "application/octet-stream"
  }

  /** The suffix-to-media-type mapping on the files a download produces. */
  lemma ContentTypeOfExtension(path: string, ext: string)
    requires ext in ["mp3", "mp4", "webm", "mkv"]
    requires EndsWith(path, "." + ext)
    ensures ContentType(path) == ExtensionMediaType(ext)
  {
    var e := "." + ext;
    assert path[|path| - 1] == e[|e| - 1];
    if ext == "mp4" {
      assert EndsWith(path, ".mp4");
    } else if ext == "mp3" {
      assert EndsWith(path, ".mp3");
    }
  }

  /** A base name is what follows the last "/" of a path built from a
      directory and a plain name. */
  lemma BasenameOfNested(root: string, dir: string, name: string)
    requires '/' !in name
    ensures Basename(root + "/" + (dir + "/" + name)) == name
  {
    NestedPath(root, dir, name);
    BasenameOfSuffix(root + "/" + dir + "/", name);
  }

  lemma NestedPath(root: string, dir: string, name: string)
    ensures root + "/" + (dir + "/" + name) == (root + "/" + dir + "/") + name
  {
    ConcatAssoc(root + "/", dir + "/", name);
    ConcatAssoc(root + "/", dir, "/");
  }

  lemma ConcatAssoc(a: string, b: string, c: string)
    ensures a + (b + c) == (a + b) + c
  {
  }

  /** Serving a download's relative path after the download gives back the
      downloaded file: its full path, the sanitized title with the extension
      as the offered name, and the media type of the extension (audio
      downloads are "audio/mpeg"). */
  lemma ServeDownloadedFile(url: string, formatId: Option<string>, audioOnly: bool, download: bool, settings: Settings,
                            fs: FileSystem, clock: Clock, extract: ExtractFn)
    requires ValidSettings(settings)
    requires DownloadOutcome(url, formatId, audioOnly, download, settings, fs, clock, extract).0.Ok?
    ensures var out := DownloadOutcome(url, formatId, audioOnly, download, settings, fs, clock, extract);
      ServedAsDownloaded(ServeFile(out.0.value.relativePath, settings, out.1), out.0.value, audioOnly)
  {
    var out := DownloadOutcome(url, formatId, audioOnly, download, settings, fs, clock, extract);
    DownloadResultLayout(url, formatId, audioOnly, download, settings, fs, clock, extract);
    var res := out.0.value;
    var k := FirstExisting(Join(settings.downloadPath, DownloadId(res.id, clock.dirSecond)), Sanitize(res.title),
                           Extensions(audioOnly), out.1, 0).value;
    var ext := Extensions(audioOnly)[k];
    assert ext in Extensions(audioOnly);
    SanitizeNoSlash(res.title);
    ServeLaidOutFile(settings, out.1, res, clock.dirSecond, Sanitize(res.title), ext, audioOnly);
  }

  /** What serving a downloaded file gives: the file itself, offered under
      the sanitized title with one of the probed extensions, with the media
      type of that extension (audio downloads are "audio/mpeg"). */
  predicate ServedAsDownloaded(served: Result<FileReply, HttpError>, res: DownloadResult, audioOnly: bool)
  {
    && served.Ok? && served.value.path == res.filePath
    && (exists ext :: ext in Extensions(audioOnly) && served.value.filename == Sanitize(res.title) + "." + ext
          && served.value.mediaType == ExtensionMediaType(ext))
    && (audioOnly ==> served.value.mediaType == "audio/mpeg")
  }

  /** `ServeFile` on a relative path of the download layout. */
  lemma ServeLaidOutFile(settings: Settings, fs: FileSystem, res: DownloadResult, second: nat, filename: string, ext: string,
                         audioOnly: bool)
    requires ValidSettings(settings) && IsVideoId(res.id)
    requires ext in Extensions(audioOnly) && '/' !in filename
    requires res.relativePath == DownloadId(res.id, second) + "/" + filename + "." + ext
    requires Join(settings.downloadPath, res.relativePath) == res.filePath && Exists(fs, res.filePath)
    ensures var served := ServeFile(res.relativePath, settings, fs);
      && served.Ok? && served.value.path == res.filePath
      && served.value.filename == filename + "." + ext
      && served.value.mediaType == ExtensionMediaType(ext)
      && (audioOnly ==> served.value.mediaType == "audio/mpeg")
  {
    var name := filename + "." + ext;
    var d := DownloadId(res.id, second);
    LaidOutPath(settings.downloadPath, res.id, second, name, res.relativePath, res.filePath);
    BasenameOfNested(settings.downloadPath, d, name);
    assert ext in ["mp3", "mp4", "webm", "mkv"];
    ContentTypeOfName(res.filePath, filename, ext);
  }

  /** Joining a relative path of the layout onto the root puts one "/"
      between them. */
  lemma LaidOutPath(root: string, videoId: string, second: nat, name: string, rel: string, file: string)
    requires IsNormalAbsPath(root) && IsVideoId(videoId)
    requires rel == DownloadId(videoId, second) + "/" + name && Join(root, rel) == file
    ensures file == root + "/" + (DownloadId(videoId, second) + "/" + name)
  {
    var d := DownloadId(videoId, second);
    NormalHasNoTrailingSlash(root);
    assert rel[0] == d[0] && d[0] == videoId[0];
  }

  /** The media type of a path whose base name is `<title>.<ext>`. */
  lemma ContentTypeOfName(path: string, title: string, ext: string)
    requires ext in ["mp3", "mp4", "webm", "mkv"]
    requires Basename(path) == title + "." + ext
    ensures ContentType(path) == ExtensionMediaType(ext)
  {
    ExtensionOfName(path, title + "." + ext, title, ext);
    ContentTypeOfExtension(path, ext);
  }

  /** A path ending in `<title>.<ext>` ends in `.<ext>`. */
  lemma ExtensionOfName(path: string, name: string, title: string, ext: string)
    requires name == title + "." + ext && EndsWith(path, name)
    ensures EndsWith(path, "." + ext)
  {
    assert name == title + ("." + ext);
    EndsWithConcat(title, "." + ext);
    EndsWithTrans(path, name, "." + ext);
  }

  /** The `download_url` of a successful `/download` leads back to the file:
      what follows the file route in it, given to `serve_file` on the
      filesystem the download left, serves the result's `file_path`. */
  lemma DownloadUrlServesFile(rawUrl: string, formatId: Option<string>, audioOnly: Option<bool>, baseUrl: string,
                              settings: Settings, fs: FileSystem, clock: Clock, extract: ExtractFn)
    requires ValidSettings(settings)
    requires DownloadResponse(rawUrl, formatId, audioOnly, baseUrl, settings, fs, clock, extract).0.Ok?
    ensures var out := DownloadResponse(rawUrl, formatId, audioOnly, baseUrl, settings, fs, clock, extract);
      var res := out.0.value;
      var route := FileRoute(baseUrl, settings);
      && res.downloadUrl.Some? && StartsWith(res.downloadUrl.value, route)
      && ServedAsDownloaded(ServeFile(res.downloadUrl.value[|route|..], settings, out.1), res, audioOnly == Some(true))
  {
    var out := DownloadResponse(rawUrl, formatId, audioOnly, baseUrl, settings, fs, clock, extract);
    var req := NewDownloadRequest(rawUrl, formatId, audioOnly).value;
    var service := DownloadOutcome(req.url, req.formatId, req.audioOnly, true, settings, fs, clock, extract);
    DownloadReplyKeepsResult(service, baseUrl, settings);
    ServeDownloadedFile(req.url, req.formatId, req.audioOnly, true, settings, fs, clock, extract);
    var res := out.0.value;
    assert res.relativePath == service.0.value.relativePath && res.filePath == service.0.value.filePath;
    assert res.title == service.0.value.title;
  }

  /** The route does not confine requests to the download root: an absolute
      requested path is served as it is whenever it exists, whatever the root. */
  lemma ServeAbsolutePath(filePath: string, settings: Settings, fs: FileSystem)
    requires StartsWith(filePath, "/")
    ensures ServeFile(filePath, settings, fs).Ok? <==> Exists(fs, filePath)
    ensures ServeFile(filePath, settings, fs).Ok? ==> ServeFile(filePath, settings, fs).value.path == filePath
  {
    JoinAbsoluteEscapes(settings.downloadPath, filePath);
  }
}
