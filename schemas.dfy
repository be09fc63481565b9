/** The request and response records of the API and the validator that every
    request's `url` passes through (`VideoRequest.validate_youtube_url`). */
module Schemas {
  import opened Common
  import opened Text
  import opened VideoRef

  /** One format of a video.  The schema requires `format_id` and `ext` and
      gives every other field the default None (audio_only: False); the service
      fills these records from extractor data that may itself hold None, so
      the two required fields are optional here too. */
  datatype VideoFormat = VideoFormat(
    formatId: Option<string>,
    ext: Option<string>,
    resolution: Option<string>,
    width: Option<int>,
    height: Option<int>,
    fps: Option<int>,
    filesize: Option<int>,
    vcodec: Option<string>,
    acodec: Option<string>,
    formatNote: Option<string>,
    audioOnly: bool)

  /** A VideoFormat given only its required fields: the declared defaults. */
  function NewVideoFormat(formatId: Option<string>, ext: Option<string>): (r: VideoFormat)
    ensures r.formatId == formatId && r.ext == ext && !r.audioOnly
    ensures r.resolution.None? && r.width.None? && r.height.None? && r.fps.None? && r.filesize.None?
    ensures r.vcodec.None? && r.acodec.None? && r.formatNote.None?
  {
    VideoFormat(formatId, ext, None, None, None, None, None, None, None, None, false)
  }

  /** The metadata returned by `/info`. */
  datatype VideoInfo = VideoInfo(
    id: Option<string>,
    title: Option<string>,
    url: string,
    webpageUrl: Option<string>,
    description: Option<string>,
    thumbnail: Option<string>,
    duration: Option<int>,
    viewCount: Option<int>,
    likeCount: Option<int>,
    uploader: Option<string>,
    uploadDate: Option<string>,
    formats: seq<VideoFormat>)

  /** A validated `/download` request. */
  datatype DownloadRequest = DownloadRequest(url: string, formatId: Option<string>, audioOnly: bool)

  /** The outcome of a download: every field is required except `download_url`. */
  datatype DownloadResult = DownloadResult(
    id: string,
    title: string,
    filePath: string,
    relativePath: string,
    fileSize: nat,
    downloadTime: real,
    format: string,
    expiryTime: int,
    audioOnly: bool,
    downloadUrl: Option<string>)

  /** `[^\s&]` */
  predicate NotSpaceOrAmp(c: char) { !IsSpace(c) && c != '&' }

  /** `(?:watch\?v=)?([^\s&]+)` matches a prefix of `t`. */
  predicate TailMatches(t: string)
  {
    (StartsWith(t, "watch?v=") && |t| > 8 && NotSpaceOrAmp(t[8])) || (|t| > 0 && NotSpaceOrAmp(t[0]))
  }

  /** `(?:youtube\.com|youtu\.be)\/` followed by the tail. */
  predicate HostMatches(t: string)
  {
    (StartsWith(t, "youtube.com/") && TailMatches(t[12..])) || (StartsWith(t, "youtu.be/") && TailMatches(t[9..]))
  }

  /** `(?:www\.)?` followed by the host. */
  predicate WwwMatches(t: string)
  {
    (StartsWith(t, "www.") && HostMatches(t[4..])) || HostMatches(t)
  }

  /** `re.match(r'(?:https?:\/\/)?(?:www\.)?(?:youtube\.com|youtu\.be)\/(?:watch\?v=)?([^\s&]+)', s)`:
      some prefix of `s` matches; each optional group is the choice of
      taking it or not. */
  predicate MatchesUrlPattern(s: string)
  {
    || (StartsWith(s, "https://") && WwwMatches(s[8..]))
    || (StartsWith(s, "http://") && WwwMatches(s[7..]))
    || WwwMatches(s)
  }

  const InvalidReference: string := "Invalid YouTube URL or ID"

  /** `validate_youtube_url`: a string matching the URL pattern is kept, a
      bare ID becomes its watch URL, anything else is rejected. */
  function ValidateYoutubeUrl(v: string): (r: Result<string, string>)
    ensures r.Ok? <==> MatchesUrlPattern(v) || MatchesBareId(v)
    ensures r.Ok? ==> MatchesUrlPattern(r.value)
    ensures MatchesBareId(v) ==> r == Ok(CanonicalUrl(v))
    ensures MatchesUrlPattern(v) ==> r == Ok(v)
    ensures r.Err? ==> r.error == InvalidReference
  {
    UrlPatternNeedsSlash(v);
    if MatchesBareId(v) then BareIdHasNoSlash(v); CanonicalUrlMatchesPattern(v); Ok(CanonicalUrl(v))
    else if !MatchesUrlPattern(v) then Err(InvalidReference)
    else Ok(v)
  }

  /** Everything the URL pattern accepts contains a "/"... */
  lemma UrlPatternNeedsSlash(s: string)
    ensures MatchesUrlPattern(s) ==> '/' in s
  {
    if StartsWith(s, "https://") && WwwMatches(s[8..]) {
      assert s[6] == s[..8][6];
    } else if StartsWith(s, "http://") && WwwMatches(s[7..]) {
      assert s[5] == s[..7][5];
    } else if WwwMatches(s) {
      var k := if StartsWith(s, "www.") && HostMatches(s[4..]) then 4 else 0;
      var t := s[k..];
      assert HostMatches(t);
      if StartsWith(t, "youtube.com/") {
        assert s[k + 11] == t[..12][11];
      } else {
        assert s[k + 8] == t[..9][8];
      }
    }
  }

  /** ...and a bare ID does not. */
  lemma BareIdHasNoSlash(v: string)
    requires MatchesBareId(v)
    ensures '/' !in v
  {
    forall i | 0 <= i < 11 ensures v[i] != '/' {
      assert v[i] == v[..11][i];
    }
  }

  /** The watch URL of a bare ID matches the URL pattern. */
  lemma CanonicalUrlMatchesPattern(v: string)
    requires MatchesBareId(v)
    ensures MatchesUrlPattern(CanonicalUrl(v))
  {
    var rest := "watch?v=" + v;
    var h := "youtube.com/" + rest;
    var t := "www." + h;
    assert CanonicalUrl(v) == "https://" + t by {
      WatchPrefixParts();
    }
    WatchTailMatches(v);
    HostBeforeTail(rest);
    WwwBeforeHost(h);
    SchemeBeforeWww(t);
  }

  lemma WatchPrefixParts()
    ensures WatchPrefix == "https://" + ("www." + ("youtube.com/" + "watch?v="))
  {
  }

  lemma WatchTailMatches(v: string)
    requires MatchesBareId(v)
    ensures TailMatches("watch?v=" + v)
  {
    var rest := "watch?v=" + v;
    assert rest[0] == 'w';
  }

  lemma HostBeforeTail(rest: string)
    requires TailMatches(rest)
    ensures HostMatches("youtube.com/" + rest)
  {
    SplitAt("youtube.com/", rest);
  }

  lemma WwwBeforeHost(h: string)
    requires HostMatches(h)
    ensures WwwMatches("www." + h)
  {
    SplitAt("www.", h);
  }

  lemma SchemeBeforeWww(t: string)
    requires WwwMatches(t)
    ensures MatchesUrlPattern("https://" + t)
  {
    SplitAt("https://", t);
  }

  lemma SplitAt(a: string, b: string)
    ensures StartsWith(a + b, a) && (a + b)[|a|..] == b
  {
    assert (a + b)[..|a|] == a;
  }

  /** The validator's output is a fixed point: validating it again keeps it. */
  lemma ValidateIdempotent(v: string)
    requires ValidateYoutubeUrl(v).Ok?
    ensures ValidateYoutubeUrl(ValidateYoutubeUrl(v).value) == ValidateYoutubeUrl(v)
  {
  }

  /** A validated URL never matches the bare-ID pattern, so the service's own
      bare-ID rewrite leaves it unchanged. */
  lemma ValidatedUrlIsNotRewritten(v: string)
    requires ValidateYoutubeUrl(v).Ok?
    ensures RewriteBareId(ValidateYoutubeUrl(v).value) == ValidateYoutubeUrl(v).value
  {
    var u := ValidateYoutubeUrl(v).value;
    UrlPatternNeedsSlash(u);
    if MatchesBareId(u) {
      BareIdHasNoSlash(u);
    }
  }

  /** Only a prefix has to match: anything may follow a matching prefix. */
  lemma PrefixMatchSuffices(s: string, rest: string)
    requires MatchesUrlPattern(s)
    ensures ValidateYoutubeUrl(s + rest) == Ok(s + rest)
  {
    var t := s + rest;
    if StartsWith(s, "https://") && WwwMatches(s[8..]) {
      assert t[..8] == s[..8] && t[8..] == s[8..] + rest;
      WwwExtends(s[8..], rest);
    } else if StartsWith(s, "http://") && WwwMatches(s[7..]) {
      assert t[..7] == s[..7] && t[7..] == s[7..] + rest;
      WwwExtends(s[7..], rest);
    } else {
      WwwExtends(s, rest);
    }
  }

  lemma WwwExtends(t: string, rest: string)
    requires WwwMatches(t)
    ensures WwwMatches(t + rest)
  {
    var u := t + rest;
    if StartsWith(t, "www.") && HostMatches(t[4..]) {
      assert u[..4] == t[..4] && u[4..] == t[4..] + rest;
      HostExtends(t[4..], rest);
    } else {
      HostExtends(t, rest);
    }
  }

  lemma HostExtends(t: string, rest: string)
    requires HostMatches(t)
    ensures HostMatches(t + rest)
  {
    var u := t + rest;
    if StartsWith(t, "youtube.com/") && TailMatches(t[12..]) {
      assert u[..12] == t[..12] && u[12..] == t[12..] + rest;
      TailExtends(t[12..], rest);
    } else {
      assert u[..9] == t[..9] && u[9..] == t[9..] + rest;
      TailExtends(t[9..], rest);
    }
  }

  lemma TailExtends(t: string, rest: string)
    requires TailMatches(t)
    ensures TailMatches(t + rest)
  {
    var u := t + rest;
    assert u[0] == t[0];
    if StartsWith(t, "watch?v=") && |t| > 8 {
      assert u[..8] == t[..8] && u[8] == t[8];
    }
  }

  /** A `/download` body: the url goes through the same validator, `format_id`
      defaults to None and `audio_only` to False. */
  function NewDownloadRequest(url: string, formatId: Option<string>, audioOnly: Option<bool>): (r: Result<DownloadRequest, string>)
    ensures r.Ok? <==> ValidateYoutubeUrl(url).Ok?
    ensures r.Ok? ==> r.value.url == ValidateYoutubeUrl(url).value && MatchesUrlPattern(r.value.url)
    ensures r.Ok? ==> r.value.formatId == formatId && (r.value.audioOnly <==> audioOnly == Some(true))
    ensures r.Err? ==> r.error == InvalidReference
  {
    match ValidateYoutubeUrl(url)
    case Err(e) => Err(e)
    case Ok(u) => Ok(DownloadRequest(u, formatId, match audioOnly case Some(b) => b case None => false))
  }
}
