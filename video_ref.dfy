/** Recognising a video reference: the bare-ID rewrite to a watch URL and the
    extraction of the 11-character video ID from a URL
    (`YouTubeService._extract_video_id`).  Each regular expression is written
    out by hand over the fixed character class `[0-9A-Za-z_-]`. */
module VideoRef {
  import opened Common
  import opened Text

  /** Exactly 11 characters of the ID class. */
  predicate IsVideoId(s: string)
  {
    |s| == 11 && forall i :: 0 <= i < 11 ==> IsIdChar(s[i])
  }

  /** `re.match(r'^[0-9A-Za-z_-]{11}$', s)`.  Python's `$` also matches just
      before a newline that ends the string, so "<id>\n" is accepted too. */
  predicate MatchesBareId(s: string)
  {
    (|s| == 11 || (|s| == 12 && s[11] == '\n')) && IsVideoId(s[..11])
  }

  const WatchPrefix: string := "https://www.youtube.com/watch?v="

  function CanonicalUrl(v: string): string
  {
    WatchPrefix + v
  }

  /** A reference that matches the bare-ID pattern becomes a watch URL; any
      other string is left as it is. */
  function RewriteBareId(url: string): string
  {
    if MatchesBareId(url) then CanonicalUrl(url) else url
  }

  /** The three patterns tried in order:
      `(?:v=|\/)([0-9A-Za-z_-]{11}).*`,
      `(?:embed\/|v\/|youtu.be\/)([0-9A-Za-z_-]{11})` and
      `(?:watch\?v=)([0-9A-Za-z_-]{11})`. */
  datatype Pattern = MarkerThenId | PathThenId | WatchThenId

  const Patterns: seq<Pattern> := [MarkerThenId, PathThenId, WatchThenId]

  predicate LiteralAt(s: string, i: nat, lit: string)
  {
    i + |lit| <= |s| && s[i..i + |lit|] == lit
  }

  /** 11 ID characters start at `i`. */
  predicate IdRunAt(s: string, i: nat)
  {
    i + 11 <= |s| && forall k :: i <= k < i + 11 ==> IsIdChar(s[k])
  }

  /** When `pat` matches with its match starting at `p`, where its captured
      group starts; the alternatives are tried in the order written (`.` in
      `youtu.be` is any character but a newline; the trailing `.*` of the
      first pattern can always match the empty string). */
  function GroupStart(pat: Pattern, s: string, p: nat): (g: Option<nat>)
    requires p <= |s|
    ensures g.Some? ==> p < g.value && IdRunAt(s, g.value)
  {
    match pat
    case MarkerThenId =>
      if LiteralAt(s, p, "v=") && IdRunAt(s, p + 2) then Some(p + 2)
      else if LiteralAt(s, p, "/") && IdRunAt(s, p + 1) then Some(p + 1)
      else None
    case PathThenId =>
      if LiteralAt(s, p, "embed/") && IdRunAt(s, p + 6) then Some(p + 6)
      else if LiteralAt(s, p, "v/") && IdRunAt(s, p + 2) then Some(p + 2)
      else if LiteralAt(s, p, "youtu") && p + 5 < |s| && s[p + 5] != '\n'
              && LiteralAt(s, p + 6, "be/") && IdRunAt(s, p + 9) then Some(p + 9)
      else None
    case WatchThenId =>
      if LiteralAt(s, p, "watch?v=") && IdRunAt(s, p + 8) then Some(p + 8) else None
  }

  /** The leftmost position at or after `p` where `pat` matches (`re.search`
      tries the positions from left to right). */
  function SearchFrom(pat: Pattern, s: string, p: nat): (r: Option<nat>)
    requires p <= |s|
    ensures r.Some? ==> p <= r.value <= |s| && GroupStart(pat, s, r.value).Some?
    ensures r.Some? ==> forall q :: p <= q < r.value ==> GroupStart(pat, s, q).None?
    ensures r.None? ==> forall q :: p <= q <= |s| ==> GroupStart(pat, s, q).None?
    decreases |s| - p
  {
    if GroupStart(pat, s, p).Some? then Some(p)
    else if p == |s| then None
    else SearchFrom(pat, s, p + 1)
  }

  /** `m = re.search(pat, s)` and then `m.group(1)`; None when nothing matches. */
  function Search(pat: Pattern, s: string): (r: Option<string>)
    ensures r.Some? ==> IsVideoId(r.value)
  {
    match SearchFrom(pat, s, 0)
    case None => None
    case Some(p) =>
      var g := GroupStart(pat, s, p).value;
      Some(s[g..g + 11])
  }

  /** The reference definition of the extracted ID: the 11 ID characters after
      the leftmost "v=" or "/" that is followed by 11 ID characters. */
  function VideoIdOf(url: string): Option<string>
  {
    Search(MarkerThenId, url)
  }

  /** The error raised when no pattern matches. */
  function NoIdError(url: string): Exc
  {
    Exc(ValueError, "Could not extract video ID from URL: " + url)
  }

  /** `_extract_video_id`: try the patterns in order and return the first
      group found; raise ValueError when none matches. */
  method ExtractVideoId(url: string) returns (r: Result<string, Exc>)
    ensures r.Ok? <==> exists p :: 0 <= p <= |url| && GroupStart(MarkerThenId, url, p).Some?
    ensures r.Ok? <==> VideoIdOf(url).Some?
    ensures r.Ok? ==> Some(r.value) == VideoIdOf(url) && IsVideoId(r.value)
    ensures r.Err? ==> r.error == NoIdError(url)
  {
    SearchFindsAMatch(MarkerThenId, url);
    for i := 0 to |Patterns|
      invariant forall j :: 0 <= j < i ==> Search(Patterns[j], url).None?
    {
      var m := Search(Patterns[i], url);
      if m.Some? {
        if i > 0 {
          assert Search(Patterns[0], url).None?;
          LaterPatternsNeedFirst(Patterns[i], url);
        }
        assert i == 0;
        return Ok(m.value);
      }
    }
    assert Search(Patterns[0], url).None?;
    return Err(NoIdError(url));
  }

  /** A search succeeds exactly when the pattern matches somewhere. */
  lemma SearchFindsAMatch(pat: Pattern, s: string)
    ensures Search(pat, s).Some? <==> exists p :: 0 <= p <= |s| && GroupStart(pat, s, p).Some?
  {
    if SearchFrom(pat, s, 0).Some? {
      var p := SearchFrom(pat, s, 0).value;
      assert GroupStart(pat, s, p).Some?;
    }
  }

  /** Wherever the second or the third pattern matches, the first one matches
      too: each of their prefixes ends in "/" or in "v=". */
  lemma LaterPatternsNeedFirst(pat: Pattern, s: string)
    requires Search(pat, s).Some?
    ensures Search(MarkerThenId, s).Some?
  {
    var p := SearchFrom(pat, s, 0).value;
    match pat
    case MarkerThenId =>
    case PathThenId =>
      var g := PathMatchEndsInSlash(s, p);
      assert GroupStart(MarkerThenId, s, g - 1).Some?;
    case WatchThenId =>
      var g := WatchMatchEndsInMarker(s, p);
      assert GroupStart(MarkerThenId, s, g - 2).Some?;
  }

  lemma PathMatchEndsInSlash(s: string, p: nat) returns (g: nat)
    requires p <= |s| && GroupStart(PathThenId, s, p).Some?
    ensures g == GroupStart(PathThenId, s, p).value && 0 < g
    ensures GroupStart(MarkerThenId, s, g - 1) == Some(g)
  {
    g := GroupStart(PathThenId, s, p).value;
    if LiteralAt(s, p, "embed/") && IdRunAt(s, p + 6) {
      assert s[p + 5] == s[p..p + 6][5];
    } else if LiteralAt(s, p, "v/") && IdRunAt(s, p + 2) {
      assert s[p + 1] == s[p..p + 2][1];
    } else {
      assert s[p + 8] == s[p + 6..p + 9][2];
    }
    assert s[g - 1..g] == "/";
  }

  lemma WatchMatchEndsInMarker(s: string, p: nat) returns (g: nat)
    requires p <= |s| && GroupStart(WatchThenId, s, p).Some?
    ensures g == GroupStart(WatchThenId, s, p).value && 1 < g
    ensures GroupStart(MarkerThenId, s, g - 2) == Some(g)
  {
    g := p + 8;
    assert s[p + 6] == s[p..p + 8][6] && s[p + 7] == s[p..p + 8][7];
    assert s[g - 2..g] == "v=";
  }

  /** Positions where nothing matches can be skipped. */
  lemma {:induction false} SearchSkips(pat: Pattern, s: string, p: nat, q: nat)
    requires p <= q <= |s|
    requires forall k :: p <= k < q ==> GroupStart(pat, s, k).None?
    ensures SearchFrom(pat, s, p) == SearchFrom(pat, s, q)
    decreases q - p
  {
    if p < q {
      SearchSkips(pat, s, p + 1, q);
    }
  }

  /** In the fixed prefix of a watch URL, the only "/" before its "v=" are at
      6, 7 and 23, and there is no other "v". */
  lemma WatchPrefixMarkers(k: nat)
    requires k < 30
    ensures WatchPrefix[k] == '/' ==> k == 6 || k == 7 || k == 23
    ensures WatchPrefix[k] != 'v'
  {
  }

  /** The watch URL made from a bare ID gives that ID back: nothing in the
      fixed prefix matches before its "v=". */
  lemma CanonicalUrlYieldsId(v: string)
    requires MatchesBareId(v)
    ensures VideoIdOf(CanonicalUrl(v)) == Some(v[..11])
  {
    var s := CanonicalUrl(v);
    assert |WatchPrefix| == 32;
    assert s[..32] == WatchPrefix;
    forall k | 32 <= k < 43 ensures IsIdChar(s[k]) {
      assert s[k] == v[..11][k - 32];
    }
    assert s[30..32] == "v=";
    assert GroupStart(MarkerThenId, s, 30) == Some(32);
    forall k | 0 <= k < 30 ensures GroupStart(MarkerThenId, s, k).None? {
      NoMatchInPrefix(s, k);
    }
    SearchSkips(MarkerThenId, s, 0, 30);
    assert s[32..43] == v[..11];
  }

  lemma NoMatchInPrefix(s: string, k: nat)
    requires |s| >= 43 && s[..32] == WatchPrefix && k < 30
    ensures GroupStart(MarkerThenId, s, k).None?
  {
    WatchPrefixMarkers(k);
    assert s[k] == WatchPrefix[k];
    if k == 6 {
      assert s[7] == WatchPrefix[7];
      assert !IsIdChar(s[7]);
    } else if k == 7 {
      assert s[11] == WatchPrefix[11];
      assert !IsIdChar(s[11]);
    } else if k == 23 {
      assert s[29] == WatchPrefix[29];
      assert !IsIdChar(s[29]);
    } else {
      assert s[k] != '/' && s[k] != 'v';
    }
  }
}
