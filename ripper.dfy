/** One run of the program, from the URL it is given to the call it makes
    into the extraction engine. The file system, the clock and the engine
    stay outside: the model takes the folder the script lives in, the clock
    reading and whether `ffmpeg.exe` exists as inputs, and returns what the
    run decides. */
module Ripper {
  import opened UrlValidator
  import opened LogFile
  import opened Paths
  import opened DownloadOptions

  /** `get_download_folder`: the `Downloads` folder next to the script. */
  function DownloadFolder(scriptDir: Path): Path {
    Join(scriptDir, "Downloads")
  }

  /** `make_log_file`: the log file inside the output folder, named after the
      second the run started. */
  function LogPath(outdir: Path, now: DateTime): Path
    requires ValidDateTime(now)
  {
    Join(outdir, LogFileName(now))
  }

  /** Where the program expects `ffmpeg.exe`: next to the script. */
  function FfmpegPath(scriptDir: Path): Path {
    Join(scriptDir, "ffmpeg.exe")
  }

  /** How a run ends before the engine reports back. */
  datatype RunOutcome =
      /** The URL was rejected; nothing was created. */
    | InvalidUrl
      /** `ffmpeg.exe` is not where expected; the output folder was created. */
    | FfmpegMissing(outdir: Path, logPath: Path, expected: Path)
      /** The engine is called with these options on these URLs. */
    | Download(outdir: Path, logPath: Path, opts: YdlOptions, urls: seq<string>)

  /** `main`, up to the engine call. */
  function PlanRun(url: string, scriptDir: Path, now: DateTime, ffmpegExists: bool, sep: char): RunOutcome
    requires ValidDateTime(now)
  {
    if !IsValid(url) then InvalidUrl
    else
      var outdir := DownloadFolder(scriptDir);
      var logPath := LogPath(outdir, now);
      if !ffmpegExists then FfmpegMissing(outdir, logPath, FfmpegPath(scriptDir))
      else
        var opts := BuildOptions(DefaultSettings, outdir, FfmpegPath(scriptDir), sep);
        Download(outdir, logPath, AttachLogger(opts, logPath), [url])
  }

  /** The process exit code: 1 for the two early exits, 0 once the engine has
      run, whatever result code it returned. */
  function ExitCode(o: RunOutcome, engineResult: int): int {
    match o
    case InvalidUrl => 1
    case FfmpegMissing(_, _, _) => 1
    case Download(_, _, _, _) => 0
  }

  /** The summary line after the engine returns: success only for result 0. */
  datatype Summary = Complete | FinishedWithCode(code: int)

  function Summarize(engineResult: int): (m: Summary)
    ensures m.Complete? <==> engineResult == 0
    ensures m.FinishedWithCode? ==> m.code == engineResult
  {
    if engineResult == 0 then Complete else FinishedWithCode(engineResult)
  }

  /** Which way a run goes. */
  lemma PlanRunBranches(url: string, scriptDir: Path, now: DateTime, ffmpegExists: bool, sep: char)
    requires ValidDateTime(now)
    ensures var o := PlanRun(url, scriptDir, now, ffmpegExists, sep);
      (o.InvalidUrl? <==> !IsValid(url))
      && (o.FfmpegMissing? <==> IsValid(url) && !ffmpegExists)
      && (o.Download? <==> IsValid(url) && ffmpegExists)
  {
  }

  /** The exit code is 1 exactly when the URL is rejected or `ffmpeg.exe` is
      missing, and the engine's result never changes it. */
  lemma ExitCodeOfRun(url: string, scriptDir: Path, now: DateTime, ffmpegExists: bool, sep: char, engineResult: int)
    requires ValidDateTime(now)
    ensures var code := ExitCode(PlanRun(url, scriptDir, now, ffmpegExists, sep), engineResult);
      code == (if IsValid(url) && ffmpegExists then 0 else 1)
  {
  }

  /** What the engine is given on the download path: the URL alone, the
      shipped settings, the file layout under `Downloads`, `ffmpeg.exe` next
      to the script, and a logger that writes to this run's log file. */
  lemma DownloadPlan(url: string, scriptDir: Path, now: DateTime, sep: char)
    requires ValidDateTime(now) && IsValid(url)
    ensures var o := PlanRun(url, scriptDir, now, true, sep);
      && o.Download?
      && o.urls == [url]
      && o.outdir == Path(scriptDir.anchor, scriptDir.names + ["Downloads"])
      && o.logPath == Path(scriptDir.anchor, scriptDir.names + ["Downloads", LogFileName(now)])
      && WellFormedName(LogFileName(now))
      && SettingsOf(o.opts) == DefaultSettings
      && o.opts.logger == FileLogger(o.logPath)
      && o.opts.ffmpegLocation == Render(scriptDir, sep) + SepAfter(scriptDir, sep) + "ffmpeg.exe"
      && o.opts.outtmpl == Render(scriptDir, sep) + SepAfter(scriptDir, sep) + "Downloads"
                           + [sep] + TitleDir + [sep] + TitleFile
  {
    var outdir := DownloadFolder(scriptDir);
    RenderJoin(scriptDir, "Downloads", sep);
    RenderJoin(scriptDir, "ffmpeg.exe", sep);
    assert outdir.names + [LogFileName(now)] == scriptDir.names + ["Downloads", LogFileName(now)];
  }

  /** Two runs from the same folder write to the same log file exactly when
      they start in the same second. */
  lemma LogPathsDistinct(scriptDir: Path, a: DateTime, b: DateTime)
    requires ValidDateTime(a) && ValidDateTime(b)
    ensures var outdir := DownloadFolder(scriptDir);
      LogPath(outdir, a) == LogPath(outdir, b) <==> ToSecond(a) == ToSecond(b)
  {
    var outdir := DownloadFolder(scriptDir);
    LogFileNameInjective(a, b);
    if LogPath(outdir, a) == LogPath(outdir, b) {
      assert LogPath(outdir, a).names[|outdir.names|] == LogFileName(a);
    }
  }
}
