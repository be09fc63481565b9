/** `YouTubeService.get_video_info`: rewrite a bare ID, check that an ID can
    be extracted, fetch the metadata without downloading, and map the info
    dictionary onto the response record.  Every failure comes back as a
    ValueError. */
module VideoInfoService {
  import opened Common
  import opened Text
  import opened Config
  import opened FileSystem
  import opened VideoRef
  import opened Schemas
  import opened Formats
  import opened YdlOptions
  import opened Extractor

  const InfoErrorPrefix: string := "Failed to get video information: "

  /** The response dictionary: each key read with `info.get(key, default)`;
      `url` is the (rewritten) request URL and the default of `webpage_url`. */
  function MapInfo(info: InfoDict, url: string, formats: seq<VideoFormat>): VideoInfo
  {
    VideoInfo(
      GetOrNone(info.id),
      Get(info.title, "Unknown Title"),
      url,
      Get(info.webpageUrl, url),
      Get(info.description, ""),
      Get(info.thumbnail, ""),
      Get(info.duration, 0),
      Get(info.viewCount, 0),
      Get(info.likeCount, 0),
      Get(info.uploader, "Unknown"),
      Get(info.uploadDate, ""),
      formats)
  }

  /** An info dictionary without None values gives a record whose optional
      fields are all filled (the id only when it is present). */
  lemma MapInfoNoNulls(info: InfoDict, url: string, formats: seq<VideoFormat>)
    requires !info.title.Null? && !info.webpageUrl.Null? && !info.description.Null? && !info.thumbnail.Null?
    requires !info.duration.Null? && !info.viewCount.Null? && !info.likeCount.Null?
    requires !info.uploader.Null? && !info.uploadDate.Null?
    ensures var r := MapInfo(info, url, formats);
      && r.title.Some? && r.webpageUrl.Some? && r.description.Some? && r.thumbnail.Some?
      && r.duration.Some? && r.viewCount.Some? && r.likeCount.Some? && r.uploader.Some? && r.uploadDate.Some?
      && (r.id.Some? <==> info.id.Val?)
  {
  }

  /** `get_video_info(url)` as a definition.  The ID check fails with
      "Invalid YouTube URL: ..."; a raising extractor, and a falsy info value
      (whose own ValueError is caught by the same handler), fail with
      "Failed to get video information: ...". */
  function VideoInfoOutcome(url: string, settings: Settings, fs: FileSystem, extract: ExtractFn): (r: Result<VideoInfo, Exc>)
    requires ValidResolution(settings.maxResolution)
    ensures r.Err? ==> r.error.kind == ValueError
    ensures r.Err? ==> StartsWith(r.error.msg, "Invalid YouTube URL: ") || StartsWith(r.error.msg, InfoErrorPrefix)
    ensures r.Ok? ==> r.value.url == RewriteBareId(url) && VideoIdOf(RewriteBareId(url)).Some?
  {
    var u := RewriteBareId(url);
    if VideoIdOf(u).None? then Err(Exc(ValueError, "Invalid YouTube URL: " + u))
    else
      var opts := MergedOptions(Some(InfoExtras), settings, fs);
      match extract(u, opts, false, fs).0
      case Raised(e) => Err(Exc(ValueError, InfoErrorPrefix + e.msg))
      case Returned(None) => Err(Exc(ValueError, InfoErrorPrefix + "Could not fetch info for video: " + u))
      case Returned(Some(info)) => Ok(MapInfo(info, u, ParsedFormats(Get(info.formats, []), settings)))
  }

  /** `get_video_info`, step by step: the rewrite, the ID extraction, the
      option merge, the extractor call and the format normaliser. */
  method GetVideoInfo(url: string, settings: Settings, fs: FileSystem, extract: ExtractFn) returns (r: Result<VideoInfo, Exc>)
    requires ValidResolution(settings.maxResolution)
    ensures r == VideoInfoOutcome(url, settings, fs, extract)
  {
    var u := url;
    if MatchesBareId(u) {
      u := CanonicalUrl(u);
    }
    var videoId := ExtractVideoId(u);
    if videoId.Err? {
      return Err(Exc(ValueError, "Invalid YouTube URL: " + u));
    }
    var infoOptions := GetYdlOptions(Some(InfoExtras), settings, fs);
    var (outcome, _) := extract(u, infoOptions, false, fs);
    if outcome.Raised? {
      return Err(Exc(ValueError, InfoErrorPrefix + outcome.e.msg));
    }
    if outcome.info.None? {
      return Err(Exc(ValueError, InfoErrorPrefix + "Could not fetch info for video: " + u));
    }
    var info := outcome.info.value;
    var formats := ParseFormats(Get(info.formats, []), settings);
    r := Ok(MapInfo(info, u, formats));
  }

  /** A bare ID never fails the ID check: its watch URL is the one fetched
      and reported. */
  lemma BareIdInfo(v: string, settings: Settings, fs: FileSystem, extract: ExtractFn)
    requires MatchesBareId(v) && ValidResolution(settings.maxResolution)
    ensures VideoInfoOutcome(v, settings, fs, extract).Err? ==>
      StartsWith(VideoInfoOutcome(v, settings, fs, extract).error.msg, InfoErrorPrefix)
    ensures VideoInfoOutcome(v, settings, fs, extract).Ok? ==>
      VideoInfoOutcome(v, settings, fs, extract).value.url == CanonicalUrl(v)
  {
    CanonicalUrlYieldsId(v);
  }
}
