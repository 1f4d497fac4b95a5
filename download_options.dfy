/** The options record handed to the extraction engine: `SETTINGS` (the
    program's tunable constants) mapped to `ydl_opts`. */
module DownloadOptions {
  import opened Paths

  /** `SETTINGS`. */
  datatype Settings = Settings(
    format: string,
    mergeOutputFormat: string,
    forceOverwrites: bool,
    noContinue: bool,
    ignoreErrors: bool,
    retries: int,
    fragmentRetries: int,
    writeThumbnail: bool,
    writeInfoJson: bool,
    embedThumbnail: bool,
    restrictFilenames: bool)

  /** The values the program ships with. */
  const DefaultSettings := Settings(
    format := "bv*+ba/best",
    mergeOutputFormat := "mp4",
    forceOverwrites := true,
    noContinue := true,
    ignoreErrors := true,
    retries := 10,
    fragmentRetries := 10,
    writeThumbnail := true,
    writeInfoJson := true,
    embedThumbnail := true,
    restrictFilenames := true)

  /** The `logger` entry: unset in the literal, then the per-run file logger
      that appends to the given log path. */
  datatype Logger = NoLogger | FileLogger(logFile: Path)

  /** `ydl_opts`. */
  datatype YdlOptions = YdlOptions(
    format: string,
    mergeOutputFormat: string,
    outtmpl: string,
    writethumbnail: bool,
    writeinfojson: bool,
    embedthumbnail: bool,
    restrictfilenames: bool,
    retries: int,
    fragmentRetries: int,
    ignoreerrors: bool,
    nooverwrites: bool,
    continuedl: bool,
    ffmpegLocation: string,
    logger: Logger)

  /** yt-dlp's template fields for the video title and the file extension. */
  const TitleDir := "%(title)s"
  const TitleFile := "%(title)s.%(ext)s"

  /** `str(outdir / "%(title)s" / "%(title)s.%(ext)s")`: one folder per
      title under the output folder, one file per title in it. */
  function OutputTemplate(outdir: Path, sep: char): (t: string)
    ensures t == Render(outdir, sep) + SepAfter(outdir, sep) + TitleDir + [sep] + TitleFile
  {
    RenderJoinTwice(outdir, TitleDir, TitleFile, sep);
    Render(Join(Join(outdir, TitleDir), TitleFile), sep)
  }

  /** The `ydl_opts` literal built from the settings, the output folder and
      the location of `ffmpeg.exe`; `sep` is the platform's path separator. */
  function BuildOptions(s: Settings, outdir: Path, ffmpeg: Path, sep: char): (o: YdlOptions)
    ensures o.format == s.format && o.mergeOutputFormat == s.mergeOutputFormat
    ensures o.writethumbnail == s.writeThumbnail && o.writeinfojson == s.writeInfoJson
    ensures o.embedthumbnail == s.embedThumbnail && o.restrictfilenames == s.restrictFilenames
    ensures o.retries == s.retries && o.fragmentRetries == s.fragmentRetries
    ensures o.ignoreerrors == s.ignoreErrors
    ensures o.nooverwrites == !s.forceOverwrites && o.continuedl == !s.noContinue
    ensures o.outtmpl == Render(outdir, sep) + SepAfter(outdir, sep) + TitleDir + [sep] + TitleFile
    ensures o.ffmpegLocation == Render(ffmpeg, sep) && o.logger == NoLogger
  {
    YdlOptions(
      format := s.format,
      mergeOutputFormat := s.mergeOutputFormat,
      outtmpl := OutputTemplate(outdir, sep),
      writethumbnail := s.writeThumbnail,
      writeinfojson := s.writeInfoJson,
      embedthumbnail := s.embedThumbnail,
      restrictfilenames := s.restrictFilenames,
      retries := s.retries,
      fragmentRetries := s.fragmentRetries,
      ignoreerrors := s.ignoreErrors,
      nooverwrites := !s.forceOverwrites,
      continuedl := !s.noContinue,
      ffmpegLocation := Render(ffmpeg, sep),
      logger := NoLogger)
  }

  /** `ydl_opts["logger"] = FileLogger(logpath)`: only the logger changes. */
  function AttachLogger(o: YdlOptions, logPath: Path): (o': YdlOptions)
    ensures o'.logger == FileLogger(logPath)
    ensures o'.(logger := o.logger) == o
  {
    o.(logger := FileLogger(logPath))
  }

  /** The settings an options record was built from, read back from it. */
  function SettingsOf(o: YdlOptions): Settings {
    Settings(
      format := o.format,
      mergeOutputFormat := o.mergeOutputFormat,
      forceOverwrites := !o.nooverwrites,
      noContinue := !o.continuedl,
      ignoreErrors := o.ignoreerrors,
      retries := o.retries,
      fragmentRetries := o.fragmentRetries,
      writeThumbnail := o.writethumbnail,
      writeInfoJson := o.writeinfojson,
      embedThumbnail := o.embedthumbnail,
      restrictFilenames := o.restrictfilenames)
  }

  /** No setting is lost or altered on the way: the options determine the
      settings, whatever the folder and the logger. */
  lemma SettingsOfBuildOptions(s: Settings, outdir: Path, ffmpeg: Path, sep: char, logPath: Path)
    ensures SettingsOf(BuildOptions(s, outdir, ffmpeg, sep)) == s
    ensures SettingsOf(AttachLogger(BuildOptions(s, outdir, ffmpeg, sep), logPath)) == s
  {
  }

  /** Distinct settings give distinct options. */
  lemma BuildOptionsInjective(s1: Settings, s2: Settings, outdir: Path, ffmpeg: Path, sep: char)
    requires BuildOptions(s1, outdir, ffmpeg, sep) == BuildOptions(s2, outdir, ffmpeg, sep)
    ensures s1 == s2
  {
    SettingsOfBuildOptions(s1, outdir, ffmpeg, sep, outdir);
    SettingsOfBuildOptions(s2, outdir, ffmpeg, sep, outdir);
  }

  /** With the shipped settings, existing files are overwritten, partial
      downloads are not resumed, both retry counts are 10, errors are
      skipped, and the thumbnail and metadata are written and embedded. */
  lemma DefaultOptions(outdir: Path, ffmpeg: Path, sep: char)
    ensures var o := BuildOptions(DefaultSettings, outdir, ffmpeg, sep);
      !o.nooverwrites && !o.continuedl && o.retries == 10 && o.fragmentRetries == 10
      && o.ignoreerrors && o.writethumbnail && o.writeinfojson && o.embedthumbnail
      && o.restrictfilenames && o.format == "bv*+ba/best" && o.mergeOutputFormat == "mp4"
  {
  }
}
