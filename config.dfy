/** The application settings, passed to every operation as a value. */
module Config {
  import opened Text
  import opened PosixPath

  datatype Settings = Settings(
    downloadPath: string,       // DOWNLOAD_PATH
    cookieFile: string,         // COOKIE_FILE
    fileExpirySeconds: nat,     // FILE_EXPIRY_SECONDS
    maxResolution: string,      // MAX_RESOLUTION, such as "1080p"
    apiV1Str: string)           // API_V1_STR, the router prefix

  /** The settings object built from the directory that holds the application. */
  function DefaultSettings(baseDir: string): Settings
  {
    Settings(Join(baseDir, "downloads"), Join(baseDir, "cookies.txt"), 3600, "1080p", "/api/v1")
  }

  /** `int(MAX_RESOLUTION.rstrip('p'))` succeeds on a plain decimal label. */
  predicate ValidResolution(res: string)
  {
    var digits := RStrip(res, 'p');
    digits != [] && AllDigits(digits)
  }

  /** Settings the service can work with: a parsable resolution label and a
      download root as `Path.resolve()` gives it. */
  predicate ValidSettings(s: Settings)
  {
    ValidResolution(s.maxResolution) && IsNormalAbsPath(s.downloadPath)
  }

  /** `int(settings.MAX_RESOLUTION.rstrip('p'))`. */
  function MaxHeight(s: Settings): nat
    requires ValidResolution(s.maxResolution)
  {
    ParseDecimal(RStrip(s.maxResolution, 'p'))
  }

  /** The shipped resolution label parses to 1080. */
  lemma DefaultResolution()
    ensures ValidResolution("1080p") && ParseDecimal(RStrip("1080p", 'p')) == 1080
  {
    assert RStrip("1080", 'p') == "1080";
    assert RStrip("1080p", 'p') == "1080";
    assert "1080"[..3] == "108" && "108"[..2] == "10" && "10"[..1] == "1" && "1"[..0] == "";
    assert ParseDecimal("1") == 1;
    assert ParseDecimal("10") == 10;
    assert ParseDecimal("108") == 108;
  }

  /** The shipped download root below a normal application directory is
      itself normal. */
  lemma DefaultRootValid(baseDir: string)
    requires IsNormalAbsPath(baseDir)
    ensures IsNormalAbsPath(Join(baseDir, "downloads"))
  {
    NormalHasNoTrailingSlash(baseDir);
    JoinBelow(baseDir, "downloads");
    AppendComponent(baseDir, "downloads");
  }

  /** The shipped settings are usable and cap the height at 1080 pixels. */
  lemma DefaultSettingsValid(baseDir: string)
    requires IsNormalAbsPath(baseDir)
    ensures ValidSettings(DefaultSettings(baseDir))
    ensures MaxHeight(DefaultSettings(baseDir)) == 1080
    ensures DefaultSettings(baseDir).fileExpirySeconds == 3600
  {
    DefaultResolution();
    DefaultRootValid(baseDir);
  }
}
