/** The option dictionary handed to the extractor
    (`YouTubeService._get_yt_dlp_options`): fixed defaults, the cookie file
    when it is usable, and the caller's options on top. */
module YdlOptions {
  import opened Common
  import opened Config
  import opened FileSystem

  /** A post-processing step of the extractor. */
  datatype Postprocessor = Postprocessor(key: string, preferredCodec: string, preferredQuality: string)

  /** The values the service puts into an option dictionary. */
  datatype OptValue = OBool(b: bool) | OStr(s: string) | ONone | OPostprocessors(steps: seq<Postprocessor>)

  type Options = map<string, OptValue>

  /** `os.path.exists(COOKIE_FILE) and os.path.getsize(COOKIE_FILE) > 0`. */
  predicate CookieUsable(settings: Settings, fs: FileSystem)
  {
    settings.cookieFile in fs.entries && fs.entries[settings.cookieFile] > 0
  }

  /** The merged dictionary as a definition: `quiet` and `no_warnings` are
      true, `cookiefile` names the cookie file exactly when it is usable, and
      every key the caller gives overrides the default of the same name. */
  function MergedOptions(extra: Option<Options>, settings: Settings, fs: FileSystem): (r: Options)
    ensures forall k :: k in r <==>
      k == "quiet" || k == "no_warnings" || (k == "cookiefile" && CookieUsable(settings, fs))
      || (extra.Some? && k in extra.value)
    ensures extra.Some? ==> forall k :: k in extra.value ==> r[k] == extra.value[k]
    ensures extra.None? || "quiet" !in extra.value ==> r["quiet"] == OBool(true)
    ensures extra.None? || "no_warnings" !in extra.value ==> r["no_warnings"] == OBool(true)
    ensures CookieUsable(settings, fs) && (extra.None? || "cookiefile" !in extra.value) ==>
      r["cookiefile"] == OStr(settings.cookieFile)
  {
    var defaults := map["quiet" := OBool(true), "no_warnings" := OBool(true)];
    var base := if CookieUsable(settings, fs) then defaults["cookiefile" := OStr(settings.cookieFile)] else defaults;
    match extra
    case None => base
    case Some(m) => base + m
  }

  /** `_get_yt_dlp_options(options)`: build the defaults with `cookiefile`
      possibly None, drop it when it is None, then update with the caller's
      options when there are any (an empty dictionary changes nothing). */
  method GetYdlOptions(extra: Option<Options>, settings: Settings, fs: FileSystem) returns (opts: Options)
    ensures opts == MergedOptions(extra, settings, fs)
  {
    var cookie := if CookieUsable(settings, fs) then OStr(settings.cookieFile) else ONone;
    opts := map["quiet" := OBool(true), "no_warnings" := OBool(true), "cookiefile" := cookie];
    if opts["cookiefile"] == ONone {
      opts := opts - {"cookiefile"};
    }
    if extra.Some? && extra.value != map[] {
      opts := opts + extra.value;
    }
  }

  /** With options that do not mention it, `cookiefile` is present exactly
      when the cookie file exists and is not empty, and then names it. */
  lemma CookieFilePresence(extra: Option<Options>, settings: Settings, fs: FileSystem)
    requires extra.None? || "cookiefile" !in extra.value
    ensures "cookiefile" in MergedOptions(extra, settings, fs) <==> CookieUsable(settings, fs)
    ensures "cookiefile" in MergedOptions(extra, settings, fs) ==>
      MergedOptions(extra, settings, fs)["cookiefile"] == OStr(settings.cookieFile)
  {
  }

  /** The options of the metadata request. */
  const InfoExtras: Options := map["skip_download" := OBool(true), "writesubtitles" := OBool(false),
                                   "writeautomaticsub" := OBool(false)]
}

/** What the extractor library returns.  The library itself is not part of
    this model; it is an oracle given to every operation that calls it. */
module Extractor {
  import opened Common
  import opened FileSystem
  import opened YdlOptions
  import opened Formats

  /** The keys of the info dictionary the service reads. */
  datatype InfoDict = InfoDict(
    id: Field<string>,
    title: Field<string>,
    webpageUrl: Field<string>,
    description: Field<string>,
    thumbnail: Field<string>,
    duration: Field<int>,
    viewCount: Field<int>,
    likeCount: Field<int>,
    uploader: Field<string>,
    uploadDate: Field<string>,
    formats: Field<seq<Option<RawFormat>>>)

  /** `extract_info(url, download=False)` either raises or returns a value;
      `Returned(None)` stands for a falsy value (None or an empty dictionary). */
  datatype ExtractOutcome = Raised(e: Exc) | Returned(info: Option<InfoDict>)

  /** One call `extract_info(url, download)` of the library with given options
      on a given filesystem: the outcome and the filesystem afterwards.  Only
      a call with `download` true writes files; a caller of a call with
      `download` false keeps the filesystem it had. */
  type ExtractFn = (string, Options, bool, FileSystem) -> (ExtractOutcome, FileSystem)
}
