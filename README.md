# youtube-endpoint: a verified model of the service core

This project models the decision logic of the YouTube download service in
`youtube-endpoint/`.
- The service layer: `YouTubeService` in `services/youtube.py`.
- The request and response schemas: `schemas.py`.
- The HTTP router: `routers/youtube.py`.
- The settings it reads: `config.py`.

The copy under `youtube-endpoint-backup/youtube-endpoint/` is byte-identical, line numbers included. The same model and the same citations hold for it.

The yt-dlp library, the filesystem and the clock are passed in as values:
- The extractor is an oracle `ExtractFn`. It maps a URL, an option dictionary, the `download` argument of `extract_info` and the filesystem to an outcome (raised, a falsy value, or an info dictionary) and the filesystem afterwards. Only a call with `download` true may write files. The service passes False on both calls (`services/youtube.py:73` and `:224`), so the model keeps the filesystem it had before each of them.
- The filesystem is a map from existing paths to sizes (`FileSystem.FileSystem`).
- The clock is `DownloadService.Clock`. `download` reads `time.time()` four times (`services/youtube.py:186`, `:221`, `:226` and `:255`). `dirSecond` is the first reading, made an integer. `elapsed` stands for the second and third, as their difference. `doneSecond` is the fourth, made an integer.

Python dictionaries whose keys may be missing or bound to None use `Common.Field` (`Absent | Null | Val`). `dict.get(k, d)` is `Common.Get`: the default applies only to a missing key. Exceptions are `Common.Exc`, a kind paired with `str(e)`. Each regular expression is written out by hand over its fixed character classes, with `\w` and `\s` taken over ASCII.

Modules and files:
- `Common`: `common.dfy`.
- `Text`: `text.dfy`. String helpers, `rstrip`, and decimal printing and parsing.
- `PosixPath` and `FileSystem`: `posix_path.dfy`. The parts of `os.path` that are used.
- `Config`: `config.dfy`.
- `VideoRef`: `video_ref.dfy`. The bare-ID rewrite and `_extract_video_id`.
- `Schemas`: `schemas.dfy`.
- `Formats`: `formats.dfy`. `_parse_formats`.
- `YdlOptions` and `Extractor`: `ydl_options.dfy`.
- `FileName`: `sanitize.dfy`. The title sanitizer.
- `VideoInfoService`: `video_info.dfy`.
- `DownloadService`: `download.dfy`.
- `Router`: `router.dfy`.

Where the source works step by step, the model is a method proved equal to a reference function. The properties are then lemmas about that function. The methods are:
- `ParseFormats`: its two loops, the seen-set and the sort.
- `ExtractVideoId`: the loop over the patterns with an early return.
- `GetYdlOptions`: the pop and update of the option dictionary.
- `SetFormat`: the branch that fills `format` and `postprocessors` in place.
- `ProbeFile`: the extension loop with `break`.
- `GetVideoInfo`, `Download`, `FinishDownload`, `HandleInfo` and `HandleDownload`.

Four consequences of the code that a reader might not expect:
- Every failure of `get_video_info` and `download` is re-raised as a ValueError, so the router answers 400, never 500, for `/info` and `/download`.
- A request body that fails the `url` validator never reaches a handler. FastAPI answers 422, not 400.
- `serve_file` joins the requested path onto the download root with no `..` or absolute-path check. `Router.ServeAbsolutePath` states the consequence.
- The download call passes False as `extract_info`'s `download` argument, so nothing is fetched. A download succeeds only on a file that was already there (see "## Findings").

Two further behaviours are modelled as written:
- The reported `format` is `format_id` whenever it is non-empty, even when `audio_only` made the extractor use `bestaudio/best` (`DownloadService.FormatPrecedence`).
- Python's `$` also matches before a final newline, so `"<11 id chars>\n"` counts as a bare ID (`VideoRef.MatchesBareId`).

## Model

| member | source | states |
|---|---|---|
| Text.RStrip | youtube-endpoint/services/youtube.py:110 | `rstrip(c)` keeps a prefix that does not end in `c`, and every removed character is `c` |
| Text.NatToString | youtube-endpoint/services/youtube.py:186 | the decimal text of a natural is non-empty, all digits, and starts with "0" only for 0 |
| Text.ParsePrinted | youtube-endpoint/services/youtube.py:215-216 | `int()` of the printed decimal text of n is n |
| Text.NatToStringInjective | youtube-endpoint/services/youtube.py:186 | different seconds print as different texts |
| PosixPath.Join | youtube-endpoint/services/youtube.py:187 | definition of `os.path.join`: an absolute second part replaces the first; otherwise one separator goes between them unless the first is empty or ends in one |
| PosixPath.Basename | youtube-endpoint/routers/youtube.py:63 | `os.path.basename`: a suffix of the path with no "/", preceded by a "/" when shorter than the path |
| PosixPath.RelPathBelow | youtube-endpoint/services/youtube.py:239 | `os.path.relpath` below a root: the root, "/" and the result give back the path |
| FileSystem.MakeDirs | youtube-endpoint/services/youtube.py:188 | `os.makedirs(p, exist_ok=True)`: afterwards p exists, every earlier entry keeps its size, and p is the only entry added |
| Config.DefaultResolution | youtube-endpoint/config.py:17 | the label "1080p" is valid, and stripping the "p" and parsing the rest gives 1080 |
| Config.DefaultRootValid | youtube-endpoint/config.py:9 | the download root `<base>/downloads` is a normal absolute path when the base directory is |
| Config.DefaultSettingsValid | youtube-endpoint/config.py:4-22 | the shipped settings are usable by the service, cap heights at 1080 and expire files after 3600 s |
| Config.DefaultSettings | youtube-endpoint/config.py:4-22 | definition: the download root `<base>/downloads`, the cookie file `<base>/cookies.txt`, an expiry of 3600 s, "1080p" and "/api/v1" |
| Config.MaxHeight | youtube-endpoint/services/youtube.py:110 | definition: `int(MAX_RESOLUTION.rstrip('p'))` on a valid label |
| VideoRef.GroupStart | youtube-endpoint/services/youtube.py:270-272 | a pattern matching at p captures 11 ID characters that start after p |
| VideoRef.MatchesBareId | youtube-endpoint/services/youtube.py:53 | definition of `^[0-9A-Za-z_-]{11}$`: 11 ID characters, optionally followed by a final newline |
| VideoRef.CanonicalUrl | youtube-endpoint/services/youtube.py:54 | definition: `https://www.youtube.com/watch?v=` followed by the ID |
| VideoRef.RewriteBareId | youtube-endpoint/services/youtube.py:53-54 | definition: a bare ID becomes its watch URL; any other string is kept |
| VideoRef.VideoIdOf | youtube-endpoint/services/youtube.py:263-280 | reference definition of the extracted ID: the first pattern's leftmost match; `VideoRef.ExtractVideoId` is proved equal to it |
| VideoRef.SearchFrom | youtube-endpoint/services/youtube.py:276 | the leftmost match position from p on: it matches, no earlier position matches, and None means no position matches |
| VideoRef.Search | youtube-endpoint/services/youtube.py:276-278 | a found group is an 11-character video ID |
| VideoRef.SearchFindsAMatch | youtube-endpoint/services/youtube.py:276-277 | `re.search` finds a group iff some position matches |
| VideoRef.SearchSkips | youtube-endpoint/services/youtube.py:276 | skipping positions where the pattern does not match leaves the search result unchanged |
| VideoRef.PathMatchEndsInSlash | youtube-endpoint/services/youtube.py:270-271 | wherever "embed/", "v/" or "youtu.be/" precedes an ID, the "/" before it is a match of the first pattern with the same group |
| VideoRef.WatchMatchEndsInMarker | youtube-endpoint/services/youtube.py:270-272 | wherever "watch?v=" precedes an ID, the "v=" before it is a match of the first pattern with the same group |
| VideoRef.LaterPatternsNeedFirst | youtube-endpoint/services/youtube.py:269-273 | the second and third patterns match only strings the first pattern already matches |
| VideoRef.ExtractVideoId | youtube-endpoint/services/youtube.py:263-280 | succeeds iff the first pattern matches somewhere; returns the leftmost such ID, an 11-character ID; otherwise raises the "Could not extract video ID" ValueError |
| VideoRef.NoMatchInPrefix | youtube-endpoint/services/youtube.py:270 | no match starts inside "https://www.youtube.com/watch?v" of a watch URL |
| VideoRef.CanonicalUrlYieldsId | youtube-endpoint/services/youtube.py:53-56 | the watch URL built from a bare ID yields exactly that ID |
| Schemas.NewVideoFormat | youtube-endpoint/schemas.py:5-18 | a VideoFormat given `format_id` and `ext` has every other field None and `audio_only` false |
| Schemas.MatchesUrlPattern | youtube-endpoint/schemas.py:41 | definition of the URL pattern: some prefix is an optional "http://" or "https://", an optional "www.", "youtube.com" or "youtu.be", "/", an optional "watch?v=", then at least one character that is neither whitespace nor "&" |
| Schemas.ValidateYoutubeUrl | youtube-endpoint/schemas.py:39-46 | accepted iff the URL pattern matches a prefix or the input is a bare ID; a matching input is returned unchanged; a bare ID becomes its watch URL; every accepted value matches the URL pattern; anything else fails with 'Invalid YouTube URL or ID' |
| Schemas.UrlPatternNeedsSlash | youtube-endpoint/schemas.py:41 | every string the URL pattern matches contains "/" |
| Schemas.BareIdHasNoSlash | youtube-endpoint/schemas.py:42 | a bare ID contains no "/", so it never matches the URL pattern |
| Schemas.CanonicalUrlMatchesPattern | youtube-endpoint/schemas.py:41-44 | the watch URL of a bare ID matches the URL pattern |
| Schemas.PrefixMatchSuffices | youtube-endpoint/schemas.py:41 | only a prefix has to match: anything may follow a matching prefix and the input is still returned unchanged |
| Schemas.ValidateIdempotent | youtube-endpoint/schemas.py:39-46 | validating a validated value returns it unchanged |
| Schemas.ValidatedUrlIsNotRewritten | youtube-endpoint/services/youtube.py:53-54 | the service's bare-ID rewrite leaves every validated URL alone |
| Schemas.NewDownloadRequest | youtube-endpoint/schemas.py:48-51 | a download request exists iff its url validates; it holds the validated url, the given `format_id`, and `audio_only` true only when given as true |
| YdlOptions.MergedOptions | youtube-endpoint/services/youtube.py:24-44 | the keys are quiet, no_warnings, cookiefile when usable, and the caller's keys; caller values win; quiet and no_warnings default to true; cookiefile names the cookie file |
| YdlOptions.GetYdlOptions | youtube-endpoint/services/youtube.py:24-44 | the dictionary built by pop and update equals the merged definition |
| YdlOptions.CookieFilePresence | youtube-endpoint/services/youtube.py:33-38 | without a caller override, cookiefile is present iff the cookie file exists with a non-zero size |
| Formats.Filesize | youtube-endpoint/services/youtube.py:125 | `filesize` when present and non-zero, otherwise `filesize_approx` with default 0 |
| Formats.IsAudio | youtube-endpoint/services/youtube.py:119 | definition: vcodec is "none" and acodec is not "none"; a missing or None acodec counts as not "none" |
| Formats.KeptHeight | youtube-endpoint/services/youtube.py:131 | definition: a height that is present, not None, not 0 and at most the cap |
| Formats.AudioEntry | youtube-endpoint/services/youtube.py:121-129 | definition of the audio entry: format id, ext, filesize, acodec, the note "Audio only" and the audio flag |
| Formats.VideoEntry | youtube-endpoint/services/youtube.py:133-146 | definition of the video entry, every field read with its default |
| Formats.EntriesFromDefaults | youtube-endpoint/services/youtube.py:119-147 | an audio entry is the schema's default VideoFormat with only filesize, acodec, the note and the audio flag set; a video entry keeps `audio_only` at its default false |
| Formats.Key | youtube-endpoint/services/youtube.py:150 | definition of the sort key: 0 for audio, otherwise the height (0 when None) |
| Formats.ClassifyOne | youtube-endpoint/services/youtube.py:114-147 | a falsy entry is skipped; a record is kept iff it is audio (vcodec "none", acodec not "none") or has a non-zero height within the cap; audio-only iff audio; the entry has the right shape, filesize, format id, ext and height |
| Formats.Classify | youtube-endpoint/services/youtube.py:113-147 | the first loop keeps at most the input's count, and every kept entry has the right shape |
| Formats.ClassifyDerived | youtube-endpoint/services/youtube.py:113-147 | every classified entry comes from some input record |
| Formats.InsertDesc | youtube-endpoint/services/youtube.py:150 | one insertion step is a permutation of the list plus the new entry |
| Formats.SortDesc | youtube-endpoint/services/youtube.py:150 | the sort is a permutation of its input |
| Formats.InsertSorted | youtube-endpoint/services/youtube.py:150 | inserting into a list sorted by descending key keeps it sorted |
| Formats.SortDescSorted | youtube-endpoint/services/youtube.py:150 | the sort's output is ordered by descending key (audio 0, video height) and is a permutation of its input |
| Formats.InsertStable | youtube-endpoint/services/youtube.py:150 | an insertion step puts the new entry after every entry of its slot that was there before |
| Formats.SortStable | youtube-endpoint/services/youtube.py:150 | the sort is stable: the entries of each slot keep their input order |
| Formats.SlotDeterminesKey | youtube-endpoint/services/youtube.py:150-166 | two entries share a de-duplication slot ("audio_only" or a height) iff they share a sort key |
| Formats.SlotSetFilter | youtube-endpoint/services/youtube.py:153-168 | a slot is in the seen-set of a list iff some entry of the list has that slot |
| Formats.Dedup | youtube-endpoint/services/youtube.py:152-170 | reference definition of the second loop: keep an entry when its slot is not claimed earlier; its properties are `Formats.DedupSlots`, `Formats.DedupFirst` and `Formats.DedupSorted` |
| Formats.DedupSlots | youtube-endpoint/services/youtube.py:152-170 | de-duplication keeps only input entries that have a slot, keeps one entry per slot, and loses no slot |
| Formats.DedupFirst | youtube-endpoint/services/youtube.py:152-170 | each kept entry is the first entry of its slot in the list |
| Formats.DedupSorted | youtube-endpoint/services/youtube.py:152-170 | de-duplication keeps the descending order |
| Formats.NormalizeStrictlyDescending | youtube-endpoint/services/youtube.py:149-170 | the output's sort keys strictly decrease |
| Formats.NormalizeOnePerSlot | youtube-endpoint/services/youtube.py:156-168 | at most one audio-only entry, and no two video entries of equal height |
| Formats.NormalizeFirstWins | youtube-endpoint/services/youtube.py:149-170 | each kept entry is the first record, in input order, of its height or of audio; every slot of the classified list is represented |
| Formats.NormalizeDerived | youtube-endpoint/services/youtube.py:113-170 | every output entry is the classification of a non-falsy input record and has the right shape |
| Formats.Normalize | youtube-endpoint/services/youtube.py:113-170 | reference definition: classify, stable sort, de-duplicate; its properties are the four `Formats.Normalize…` lemmas |
| Formats.ParsedFormats | youtube-endpoint/services/youtube.py:102-170 | reference definition of `_parse_formats`: [] for a missing or empty list, otherwise the normalised list under the configured cap |
| Formats.ParsedFormatsOfNothing | youtube-endpoint/services/youtube.py:107-108 | a missing or empty format list gives [] |
| Formats.ParseFormats | youtube-endpoint/services/youtube.py:102-170 | the two loops, the in-place sort and the seen-set compute classify, then stable sort, then first-per-slot |
| FileName.RemoveInvalid | youtube-endpoint/services/youtube.py:194 | every remaining character is in `[\w\s-]`, and a title made only of such characters is unchanged |
| FileName.Collapse | youtube-endpoint/services/youtube.py:195 | no whitespace and no "--" remain, a leading "-" comes from a leading separator, and on `[\w\s-]` input only word characters and "-" remain |
| FileName.StripLeft | youtube-endpoint/services/youtube.py:195 | `lstrip('-_')` keeps a suffix that does not start with "-" or "_" |
| FileName.StripRight | youtube-endpoint/services/youtube.py:195 | `rstrip('-_')` keeps a prefix that does not end with "-" or "_" |
| FileName.Strip | youtube-endpoint/services/youtube.py:195 | definition: `strip('-_')` as the left strip then the right strip |
| FileName.DropSeps | youtube-endpoint/services/youtube.py:195 | the input without its leading separators: a suffix that does not start with one, shorter when the input did |
| FileName.Sanitize | youtube-endpoint/services/youtube.py:194-195 | definition of the file name: delete the invalid characters, collapse the separator runs, strip; its properties are `FileName.SanitizeShape`, `FileName.SanitizeNoSlash` and `FileName.SanitizeIdempotent` |
| FileName.StripKeeps | youtube-endpoint/services/youtube.py:195 | stripping keeps "only word characters and dashes, no --" and leaves no "-" or "_" at either end |
| FileName.SanitizeShape | youtube-endpoint/services/youtube.py:194-195 | the file name has only word characters and "-" (no whitespace, "/" or "."), has no "--", and does not start or end with "-" or "_" |
| FileName.SanitizeNoSlash | youtube-endpoint/services/youtube.py:194-199 | the file name is a single path component |
| FileName.CollapseIdentity | youtube-endpoint/services/youtube.py:195 | collapsing leaves text unchanged when it has no whitespace and no "--" |
| FileName.SanitizeIdempotent | youtube-endpoint/services/youtube.py:194-195 | sanitizing twice equals sanitizing once |
| VideoInfoService.MapInfo | youtube-endpoint/services/youtube.py:80-93 | definition of the response: each field read with `info.get(key, default)`; url is the rewritten URL and the default of webpage_url |
| VideoInfoService.MapInfoNoNulls | youtube-endpoint/services/youtube.py:80-93 | an info dictionary without None values fills every optional field, and the id exactly when present |
| VideoInfoService.VideoInfoOutcome | youtube-endpoint/services/youtube.py:47-100 | every failure is a ValueError, "Invalid YouTube URL: ..." or "Failed to get video information: ..."; a success reports the rewritten URL, from which an ID is extracted |
| VideoInfoService.GetVideoInfo | youtube-endpoint/services/youtube.py:47-100 | the step-by-step lookup equals the definition |
| VideoInfoService.BareIdInfo | youtube-endpoint/services/youtube.py:53-60 | a bare ID never fails the ID check, and its watch URL is what is reported |
| DownloadService.DownloadError | youtube-endpoint/services/youtube.py:259-261 | the re-raised error is a ValueError holding "Failed to download video: " followed by the original message |
| DownloadService.DownloadId | youtube-endpoint/services/youtube.py:186 | definition: the video ID, "_" and the decimal second |
| DownloadService.BoundedFormat | youtube-endpoint/services/youtube.py:215-216 | definition: `bestvideo[height<=h]+bestaudio/best[height<=h]` |
| DownloadService.ChosenFormat | youtube-endpoint/services/youtube.py:202-216 | definition: "bestaudio/best" for audio, otherwise a non-empty format_id, otherwise the bounded expression |
| DownloadService.ReportedFormat | youtube-endpoint/services/youtube.py:253 | definition of `format_id or download_options['format']` |
| DownloadService.DownloadOptions | youtube-endpoint/services/youtube.py:198-216 | definition of the download call's option dictionary; its content is stated by `DownloadService.FormatPrecedence` |
| DownloadService.Extensions | youtube-endpoint/services/youtube.py:230 | definition: ["mp3"] for audio, otherwise ["mp4", "webm", "mkv"], in that order |
| DownloadService.Candidate | youtube-endpoint/services/youtube.py:233 | definition: the output directory joined with `<name>.<ext>` |
| DownloadService.DownloadIdInjective | youtube-endpoint/services/youtube.py:186 | two downloads share a directory name only for the same video in the same second |
| DownloadService.DownloadIdHasNoSlash | youtube-endpoint/services/youtube.py:186-187 | the directory name is a single path component |
| DownloadService.WithFormat | youtube-endpoint/services/youtube.py:202-216 | format is set to the chosen expression, audio adds the single mp3 post-processing step, no other key is added, and every other key keeps its value |
| DownloadService.SetFormat | youtube-endpoint/services/youtube.py:202-216 | the in-place updates produce exactly that dictionary |
| DownloadService.FormatPrecedence | youtube-endpoint/services/youtube.py:198-216 | outtmpl is `<output dir>/<name>.%(ext)s`; audio gives "bestaudio/best" with FFmpegExtractAudio mp3 192; otherwise a non-empty format_id is used verbatim; otherwise the height-bounded expression; postprocessors only for audio; the reported format is a non-empty format_id, otherwise the chosen expression |
| DownloadService.FirstExisting | youtube-endpoint/services/youtube.py:229-236 | the first extension whose candidate file exists, with no earlier one existing; None when none exists |
| DownloadService.ProbeFile | youtube-endpoint/services/youtube.py:229-236 | the loop with `break` finds exactly that extension |
| DownloadService.FirstExistingUnique | youtube-endpoint/services/youtube.py:232-236 | any index satisfying "exists, and no earlier one does" is the probe's answer |
| DownloadService.OutputLayout | youtube-endpoint/services/youtube.py:233-243 | the candidate file is `<root>/<id>_<second>/<name>.<ext>` and lies below the root |
| DownloadService.ResultFor | youtube-endpoint/services/youtube.py:238-257 | definition of the result record of a found file; its content is stated by `DownloadService.ResultForLayout` |
| DownloadService.Finish | youtube-endpoint/services/youtube.py:228-257 | fails iff no expected candidate exists, and then with exactly the wrapped "Download failed: Could not find downloaded file" ValueError |
| DownloadService.FinishDownload | youtube-endpoint/services/youtube.py:228-257 | the probe and the record construction equal the definition |
| DownloadService.ResultForLayout | youtube-endpoint/services/youtube.py:242-257 | the record of a found file: id, title, relative path `<id>_<second>/<name>.<ext>` that joins back to file_path, size from the filesystem, expiry = completion second + FILE_EXPIRY_SECONDS, audio flag, format, no download URL |
| DownloadService.FinishLayout | youtube-endpoint/services/youtube.py:228-257 | a successful finish has that layout for the first expected extension whose candidate exists |
| DownloadService.DownloadOutcome | youtube-endpoint/services/youtube.py:172-261 | every failure of `download`, with the download argument as written or as intended, is a ValueError prefixed "Failed to download video: " |
| DownloadService.Download | youtube-endpoint/services/youtube.py:172-261 | the step-by-step download gives the same result and filesystem as the definition |
| DownloadService.DownloadResultLayout | youtube-endpoint/services/youtube.py:172-257 | a successful download holds the extracted ID, the sanitized title as file name, the first expected extension whose candidate exists on the filesystem it leaves, a relative path that joins back to that file, its size, the expiry, the audio flag and the reported format |
| DownloadService.DirectoryBeforeMetadata | youtube-endpoint/services/youtube.py:185-191 | when the metadata fetch fails, the output directory has been created all the same |
| DownloadService.NoIdNoDirectory | youtube-endpoint/services/youtube.py:182-188 | a URL without an ID fails with the wrapped "Could not extract video ID" error and creates nothing |
| DownloadService.NoneTitleFailsDownload | youtube-endpoint/services/youtube.py:191-195 | a title holding None stays None in the metadata (the default is only for a missing key), and the download then fails with the wrapped TypeError of the sanitizer, leaving only the output directory |
| DownloadService.AsWrittenOnlyMakesDirectory | youtube-endpoint/services/youtube.py:186-224 | with the download argument False, the filesystem afterwards is the one before with the output directory added |
| DownloadService.AsWrittenFindsOnlyOldFiles | youtube-endpoint/services/youtube.py:223-240 | with the download argument False, the file of a successful download existed before the request, below the download root |
| DownloadService.OldFileBelowDirectory | youtube-endpoint/services/youtube.py:186-233 | a candidate file inside the output directory is not the directory, so making the directory does not create it |
| DownloadService.AsWrittenFailsOnEmptyRoot | youtube-endpoint/services/youtube.py:223-240 | with the download argument False, a download into a root below which nothing exists always fails |
| DownloadService.DownloadFindsWrittenFile | youtube-endpoint/services/youtube.py:223-243 | with the download argument true, when the library writes the first expected candidate, the download succeeds with that file on the filesystem the library left |
| DownloadService.FinishFirst | youtube-endpoint/services/youtube.py:229-243 | when the first expected candidate exists, the finish succeeds with that file |
| Router.ServiceFailure | youtube-endpoint/routers/youtube.py:19-22 | a ValueError gives 400 with its message, anything else 500 with the handler's prefix |
| Router.ServeFailure | youtube-endpoint/routers/youtube.py:79-82 | an HTTPException passes through unchanged; anything else gives 500 "Error serving file: ..." |
| Router.ContentType | youtube-endpoint/routers/youtube.py:64 | "video/mp4" iff the path ends in ".mp4"; otherwise "audio/mpeg" iff it ends in ".mp3"; otherwise "application/octet-stream" |
| Router.ContentDisposition | youtube-endpoint/routers/youtube.py:68-70 | `attachment; filename="` + name + `"`, from which the name reads back |
| Router.ServeFile | youtube-endpoint/routers/youtube.py:48-82 | served iff the joined path exists, otherwise 404 "File not found or expired"; the reply has the joined path, its content type, its base name and the matching header |
| Router.ServeAbsolutePath | youtube-endpoint/routers/youtube.py:55 | an absolute requested path is served as given, outside the download root |
| Router.FileRoute | youtube-endpoint/routers/youtube.py:38-39 | the base URL without trailing "/", then the API prefix, ending in "/file/" |
| Router.DownloadUrl | youtube-endpoint/routers/youtube.py:38-39 | the download URL is the file route followed by the relative path |
| Router.InfoResponse | youtube-endpoint/routers/youtube.py:11-22 | an invalid body gives 422; a service failure gives 400 with its message; success returns the info; no other status occurs |
| Router.HandleInfo | youtube-endpoint/routers/youtube.py:11-22 | the handler equals the definition |
| Router.DownloadResponse | youtube-endpoint/routers/youtube.py:24-46 | 422 iff the request body is invalid, and then nothing changes; every other failure is 400; success carries the download URL of its relative path |
| Router.HandleDownload | youtube-endpoint/routers/youtube.py:24-46 | the handler, which adds `download_url` in place, equals the definition |
| Router.DownloadReplyKeepsResult | youtube-endpoint/routers/youtube.py:36-46 | the reply is the service result with only download_url added; the filesystem is the service's; a service ValueError becomes 400 with its message |
| Router.DownloadReply | youtube-endpoint/routers/youtube.py:36-46 | definition of the handler's answer to the service outcome; its content is stated by `Router.DownloadReplyKeepsResult` |
| Router.ExtensionMediaType | youtube-endpoint/routers/youtube.py:64 | definition: "video/mp4" for mp4, "audio/mpeg" for mp3, otherwise "application/octet-stream" |
| Router.ContentTypeOfExtension | youtube-endpoint/routers/youtube.py:64 | a path ending in ".mp4", ".mp3", ".webm" or ".mkv" gets video/mp4, audio/mpeg or application/octet-stream |
| Router.ContentTypeOfName | youtube-endpoint/routers/youtube.py:63-64 | the content type follows the extension of the base name |
| Router.ServeLaidOutFile | youtube-endpoint/routers/youtube.py:55-78 | a file laid out by the download is served with its own path, its `<name>.<ext>` base name and the extension's content type; audio downloads are served as audio/mpeg |
| Router.ServeDownloadedFile | youtube-endpoint/routers/youtube.py:55-78 | the relative path of every successful download, with either download argument, is served afterwards as that file |
| Router.DownloadUrlServesFile | youtube-endpoint/routers/youtube.py:38-64 | the path segment of a download URL, requested from the file route, serves the downloaded file with the sanitized title as its name |

## Left out

- Input and output, `asyncio`'s `run_in_executor`, logging, and the streaming done by `FileResponse`. Only the arguments of the response are modelled.
- The yt-dlp library. It is an oracle; what it downloads and which files it writes are whatever the oracle returns.
  - Both calls pass False as `extract_info`'s `download` argument, so the model discards any filesystem change they would make. The download call is also modelled with true, the evidently intended value (see "## Findings").
  - The same-second directory collision between concurrent downloads is a concurrency race and is not modelled.
- Floating point. The `tbr` fields are not modelled. `download_time` is an opaque real taken from the clock.
- `int(settings.MAX_RESOLUTION.rstrip('p'))` on a label that is not decimal. Every operation that reads the cap requires a parsable label (`Config.ValidResolution`), which the shipped "1080p" is.
- Failures of `os.makedirs`, and the difference between files and directories. A created directory is an entry of size 0.
- `os.path.relpath` in general. It is modelled only for files below a download root that is a normalised absolute path, which is where the service puts them.
- Unicode. `\w`, `\s` and `str.isspace()` are taken over ASCII.
- Pydantic. The 422 body of a failed validation is modelled as an `HttpError(422, 'Invalid YouTube URL or ID')`, without its JSON structure.
  - The `response_model` check is not modelled. A VideoInfo with an id or title of None would fail it.
- The message of the TypeError that `re.sub` raises on a title of None depends on the Python version. The model fixes one wording.
- The router's 500 branches for `/info` and `/download` are not reachable in the model, because the service turns every failure into a ValueError.
  - `serve_file`'s 500 branch is not reachable either, because nothing it calls raises in the model.
  - `Router.ServiceFailure` and `Router.ServeFailure` state both branches.
- `serve_file` does not reject `..` segments or absolute paths. `Router.ServeAbsolutePath` states the escape.
- `list.sort` (Timsort). It is modelled by the stable insertion sort `Formats.SortDesc`, which computes a value, rather than by an in-place array sort. Its contract is what Python guarantees: sorted by key reverse and stable.
- `chrome-runner/chrome_runner.py` and `main.py` (UI automation, and application construction with a health check). Neither is part of this model.
- DownloadService.DownloadOutcome: its own ensures states only the error case. The successful result is stated by `DownloadService.DownloadResultLayout`. The filesystem effects are stated by `DownloadService.DirectoryBeforeMetadata`, `DownloadService.NoIdNoDirectory` and `DownloadService.AsWrittenOnlyMakesDirectory`. What each value of the download argument finds is stated by `DownloadService.AsWrittenFindsOnlyOldFiles` and `DownloadService.DownloadFindsWrittenFile`.
- The router's handlers call the download with the intended download argument true. `Router.DownloadResponse`, `Router.HandleDownload` and `Router.DownloadUrlServesFile` therefore describe the corrected service. `Router.ServeDownloadedFile` holds for both values.

## Findings

| source | as written | input that shows it | evidently intended | confidence | as-written member | corrected member |
|---|---|---|---|---|---|---|
| youtube-endpoint/services/youtube.py:223-224 | the download call is `extract_info(url, False)`, which only reads metadata and writes no file | any download into a download root below which no file exists yet: the probe finds nothing and the request fails with "Could not find downloaded file" | `extract_info(url, True)`, so that the probe finds the file the library wrote | not executed | DownloadService.AsWrittenFailsOnEmptyRoot | DownloadService.DownloadFindsWrittenFile |
