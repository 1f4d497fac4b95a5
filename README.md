# YouTube Ripper: a Dafny model of its own logic

The program downloads one YouTube video or playlist by handing the URL to
the `yt_dlp` library. It has three pieces of logic of its own, and this
project models each one and proves properties about it:

- **URL validation** (`url_validator.dfy`, module `UrlValidator`).
  `YOUTUBE_PATTERNS` has four regular expressions:
  - the watch URL, optionally with `www.`;
  - the playlist URL, optionally with `www.`;
  - the watch URL, optionally with `m.`;
  - the `youtu.be` short link, optionally with `www.`.

  `is_valid_youtube_url` accepts a string when `re.match` finds one of the
  four at its start. Each pattern is modelled as a prefix matcher, built
  from the same pieces as the regular expression:
  - the scheme `http` with an optional `s`;
  - the optional subdomain group, tried first and then skipped, as the
    regex engine backtracks;
  - the literal host and path marker;
  - one character from the negated class. One character is enough,
    because there is no end anchor.

  Separately, a flat table lists the 7 host-and-marker routes allowed
  after the scheme. The two readings are proved equal. These properties
  are then proved from the table:
  - the scheme is required;
  - appending anything to an accepted string keeps it accepted;
  - at least one character must follow the marker;
  - the subdomain rules.
- **Log file names** (`log_file.dfy`, module `LogFile`). `make_log_file`
  names the log `download_YYYYMMDD_HHMMSS.log`, using `strftime` on the
  current time. The time is a parameter here, not a call to the clock.
  The model proves:
  - the name has a fixed shape of 28 characters;
  - a parser reads back the second the name encodes, and the two
    directions are inverses;
  - two runs get the same name exactly when they start in the same second;
  - sorting the names as strings sorts the runs by start time.
- **Options** (`download_options.dfy`, module `DownloadOptions`). `SETTINGS`
  is mapped to the `ydl_opts` record:
  - most fields are copied unchanged;
  - `nooverwrites` and `continuedl` are the negations of
    `force_overwrites` and `no_continue`;
  - the output template is `outdir/%(title)s/%(title)s.%(ext)s`;
  - the logger is attached afterwards.

  A reader function recovers the settings from the options. This shows
  that the mapping loses and changes nothing beyond the two negations.
  `paths.dfy` (module `Paths`) models the part of `pathlib` used here:
  joining one name with `/`, and `str()` of the result, with the
  platform's separator as a parameter.

`ripper.dfy` (module `Ripper`) puts them together as `main` does, up to the
call into the engine. An invalid URL ends the run before any folder or log
path is derived. A missing `ffmpeg.exe` ends it with exit code 1. Otherwise
the engine receives the single URL and the options built from the shipped
settings. The exit code is then 0, whatever result code the engine returns.

## Model

| member | source | states |
|---|---|---|
| `UrlValidator.AnyMatchMembership` | YoutubeRipper5000.py:43 | `any` over a pattern list is true iff some pattern in the list matches |
| `UrlValidator.AnyMatchOrderIrrelevant` | YoutubeRipper5000.py:35-43 | any two pattern lists that contain the same patterns, whatever their order and however often each appears, accept the same strings |
| `UrlValidator.IsValidIffOneOfFour` | YoutubeRipper5000.py:35-43 | a URL is valid iff the watch, playlist, mobile-watch or short-link pattern matches it |
| `UrlValidator.MatchHostIff` | YoutubeRipper5000.py:36-39 | the optional group `(SUB)?` followed by the marker and one class character matches iff the text starts with `SUB MARKER` or with `MARKER`, followed by a character of the class |
| `UrlValidator.IsValidIffAccepted` | YoutubeRipper5000.py:35-43 | the validator accepts exactly the strings that begin `http://` or `https://`, then one of the 7 listed hosts with their markers, then one character of that route's class |
| `UrlValidator.SchemeRequired` | YoutubeRipper5000.py:36-39 | every accepted string starts with exactly one of `http://` and `https://`; a string starting with neither is rejected |
| `UrlValidator.ExtensionPreservesValidity` | YoutubeRipper5000.py:36-43 | if `s` is accepted then `s + t` is accepted for every `t` (no end anchor) |
| `UrlValidator.SubdomainRules` | YoutubeRipper5000.py:36-39 | after the scheme, an accepted string continues with `youtube.com/`, `youtu.be/`, `www.youtube.com/`, `www.youtu.be/` or `m.youtube.com/watch?v=`; any other subdomain is rejected, and `m.` is allowed only before the watch path |
| `UrlValidator.AcceptsWatchUrl` | YoutubeRipper5000.py:36 | `http(s)://www.youtube.com/watch?v=` followed by an id whose first character is neither `&` nor whitespace is accepted, whatever follows |
| `UrlValidator.AcceptsShortLink` | YoutubeRipper5000.py:39 | `http(s)://youtu.be/` followed by an id whose first character is neither `?` nor whitespace is accepted, whatever follows |
| `UrlValidator.RejectsEmptyVideoId` | YoutubeRipper5000.py:36-38 | `http(s)://www.youtube.com/watch?v=` followed by nothing, or by `&` or whitespace, is rejected, e.g. `https://www.youtube.com/watch?v=&x` |
| `UrlValidator.RejectsEmptyShortId` | YoutubeRipper5000.py:39 | `http(s)://youtu.be/` followed by nothing, or by `?` or whitespace, is rejected, e.g. `https://youtu.be/` |
| `UrlValidator.RejectsMobilePlaylist` | YoutubeRipper5000.py:37-38 | `http(s)://m.youtube.com/playlist?list=` is rejected, whatever follows |
| `LogFile.Digits` | YoutubeRipper5000.py:54 | a field number below `10^w` is written in exactly `w` decimal digits |
| `LogFile.DigitsValueOfDigits` | YoutubeRipper5000.py:54 | reading a zero-padded field back gives its number |
| `LogFile.LogFileName` | YoutubeRipper5000.py:53-54 | the name is `download_`, eight digits, `_`, six digits, `.log` (28 characters), with the date digits and the time digits in their places |
| `LogFile.ParseLogFileNameOfLogFileName` | YoutubeRipper5000.py:54 | parsing the name of a run's start time gives that time truncated to the second |
| `LogFile.LogFileNameOfParseLogFileName` | YoutubeRipper5000.py:54 | every string the parser accepts is the name of the time it returns, so names and seconds correspond one to one |
| `LogFile.LogFileNameInjective` | YoutubeRipper5000.py:54 | two start times give the same name iff they agree down to the second |
| `LogFile.LogFileNameOrder` | YoutubeRipper5000.py:54 | one name is less than another as a string iff its start time is earlier, to the second |
| `Paths.RenderJoin` | YoutubeRipper5000.py:49 | `str(p / name)` is `str(p)`, one separator (none after a bare anchor), and the name |
| `Paths.RenderJoinTwice` | YoutubeRipper5000.py:84 | `str(p / a / b)` is `str(p)`, a separator, `a`, a separator, `b` |
| `DownloadOptions.OutputTemplate` | YoutubeRipper5000.py:84 | the output template is the output folder, then `%(title)s`, then `%(title)s.%(ext)s`, joined by the separator |
| `DownloadOptions.BuildOptions` | YoutubeRipper5000.py:80-96 | format, merge format, the thumbnail, info-json, embed and restrict flags, both retry counts and `ignoreerrors` are copied; `nooverwrites` is `not force_overwrites`; `continuedl` is `not no_continue`; `ffmpeg_location` is the path as a string; no logger yet |
| `DownloadOptions.AttachLogger` | YoutubeRipper5000.py:110 | the logger becomes a file logger on the log path, and no other option changes |
| `DownloadOptions.SettingsOfBuildOptions` | YoutubeRipper5000.py:81-94 | the settings can be read back from the options, before and after the logger is attached |
| `DownloadOptions.BuildOptionsInjective` | YoutubeRipper5000.py:81-94 | different settings give different options |
| `DownloadOptions.DefaultOptions` | YoutubeRipper5000.py:20-32 | with the shipped settings, files are overwritten, downloads are not resumed, both retry counts are 10, errors are ignored, thumbnail and metadata are written and embedded, file names are restricted, the format is `bv*+ba/best` and the container is `mp4` |
| `Ripper.Summarize` | YoutubeRipper5000.py:116-119 | the summary reports completion iff the engine returned 0, and otherwise reports the code |
| `Ripper.PlanRunBranches` | YoutubeRipper5000.py:61-77 | a run stops with an invalid URL iff the validator rejects it, stops for a missing `ffmpeg.exe` iff the URL is valid and the binary is absent, and downloads otherwise |
| `Ripper.ExitCodeOfRun` | YoutubeRipper5000.py:61-77 | on every run where no exception is raised, the exit code is 1 exactly for an invalid URL or a missing `ffmpeg.exe`, and 0 otherwise, whatever the engine returns |
| `Ripper.DownloadPlan` | YoutubeRipper5000.py:46-114 | on the download path, the engine gets the URL alone; the folder is `Downloads` next to the script and the log file is inside it; the options carry the shipped settings, a logger on that log file, `ffmpeg.exe` next to the script, and the output template under `Downloads` |
| `Ripper.LogPathsDistinct` | YoutubeRipper5000.py:53-54 | two runs from the same folder share a log path iff they start in the same second |

## Left out

- The `yt_dlp.YoutubeDL(...).download` call: network retrieval, format selection, retries and muxing all happen in a foreign library. The model stops at the options and URL list passed to it, and takes the engine's result code as an input.
- `get_download_folder`'s `mkdir(parents=True, exist_ok=True)` and `Path(__file__).resolve()`: these are file system effects. The folder holding the script is a parameter, and only the paths derived from it are modelled.
- The `ffmpeg.exe` existence check: this is a file system query. Its answer is a parameter of `Ripper.PlanRun`.
- `FileLogger`: it prints, appends to the log file and reads `datetime.now()` for every line. Only its target path is modelled, as `DownloadOptions.Logger`.
- Reading the URL from `sys.argv` or from `input().strip()`, the `print` calls and `sys.exit`: these are process and terminal plumbing. The URL arrives as a string; the exit code and the summary are values.
- Regular expressions in general: only the four fixed patterns are modelled, each written out as a matcher.
- `UrlValidator.IsSpace`: this is the fixed list of characters for which Python's `str.isspace()` holds, as `\s` matches them in a `str` pattern. Unicode database versions that add characters are not followed.
- `LogFile.LogFileName`: years below 1000 get four zero-padded digits, as the Windows C library writes `%Y`. glibc writes them without padding, and that variant is not modelled. For the years 1000-9999 both agree.
- `Paths.Join`: it appends one name. `pathlib`'s special cases are not modelled: a right operand that is absolute or has a drive, separators inside a name, and normalisation of `.` parts. The program only joins fixed names, the title templates and the log file name. The empty relative path renders as `""` here, while `str(PurePath())` is `"."`. The program never builds it, because the script folder comes from `Path(__file__).resolve()` and is absolute.
- Exceptions: an exception raised inside the `yt_dlp.YoutubeDL` block, by `FileLogger._write`'s `open(..., "a")` or by `mkdir` ends the process with a traceback and exit code 1. The model does not represent these failures, so `Ripper.ExitCodeOfRun` speaks only of runs in which nothing is raised.
- `UrlValidator.IsSpace` and `UrlValidator.InClass`: a Python `str` can hold lone surrogates, for example from `sys.argv` decoded with `surrogateescape`. Such a character is in `[^&\s]` and `[^?\s]`, but a Dafny `char` cannot hold a surrogate, so URLs that contain one cannot be expressed in the model.
