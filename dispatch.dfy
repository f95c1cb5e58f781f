/** The per-row job `_download`: the skip test, then the downloader options
    (trim window, output template, optional cookie file). The call into the
    downloader itself is not modelled; a `Fetch` records what it is given. */
module Dispatch {
  import opened Outcomes
  import opened Text
  import opened Catalog

  /** `cls_id`: one id in the single-class exact case, else the list of ids. */
  datatype ClassIds = One(id: string) | Many(ids: seq<string>)

  /** `exmp.positive_labels == cls_id`. A string never equals a list. */
  predicate LabelsEqual(labels: string, clsId: ClassIds) {
    match clsId
    case One(id) => labels == id
    case Many(_) => false
  }

  /** `_download` goes on past its first test: `mixed`, or the labels are exactly `cls_id`. */
  predicate Proceeds(labels: string, clsId: ClassIds, mixed: bool) {
    mixed || LabelsEqual(labels, clsId)
  }

  /** `str(timedelta(seconds=s))` for whole seconds: `H:MM:SS`, after
      `"D day, "` or `"D days, "` when the value spans whole days (negative values
      count down from a negative number of days). */
  function TimedeltaStr(seconds: int): string {
    var days := seconds / 86400;
    var secs := seconds % 86400;
    var clock := NatStr(secs / 60 / 60) + ":" + Pad2(secs / 60 % 60) + ":" + Pad2(secs % 60);
    if days == 0 then clock
    else IntStr(days) + " day" + (if days == 1 || days == -1 then "" else "s") + ", " + clock
  }

  /** Reads a `H:MM:SS` clock back into seconds. */
  function ClockSeconds(t: string): int
    requires |t| >= 6
  {
    DigitsValue(t[..|t| - 6]) * 3600 + DigitsValue(t[|t| - 5..|t| - 3]) * 60 + DigitsValue(t[|t| - 2..])
  }

  lemma ClockParts(h: string, m: string, s: string)
    requires |m| == 2 && |s| == 2
    ensures var t := h + ":" + m + ":" + s;
      && |t| == |h| + 6 && t[|t| - 3] == ':' && t[|t| - 6] == ':'
      && t[..|t| - 6] == h && t[|t| - 5..|t| - 3] == m && t[|t| - 2..] == s
  {
  }

  lemma HoursMinutesSeconds(seconds: nat)
    ensures seconds == seconds / 60 / 60 * 3600 + seconds / 60 % 60 * 60 + seconds % 60
    ensures seconds < 86400 ==> seconds / 60 / 60 < 24
  {
  }

  /** An `H:MM:SS` clock: one or two hour digits without a leading zero, two-digit
      minutes and seconds, colons at their places. */
  predicate IsClock(t: string) {
    && (|t| == 7 || |t| == 8) && t[|t| - 3] == ':' && t[|t| - 6] == ':'
    && IsDigits(t[..|t| - 6]) && IsDigits(t[|t| - 5..|t| - 3]) && IsDigits(t[|t| - 2..])
    && (|t| == 8 ==> t[0] != '0')
  }

  lemma ClockShape(h: string, m: string, s: string)
    requires 1 <= |h| <= 2 && IsDigits(h) && (h[0] == '0' ==> |h| == 1)
    requires |m| == 2 && IsDigits(m) && |s| == 2 && IsDigits(s)
    ensures IsClock(h + ":" + m + ":" + s)
  {
    var t := h + ":" + m + ":" + s;
    ClockParts(h, m, s);
    assert t[0] == h[0];
  }

  /** Within a day the text is an `H:MM:SS` clock that reads back as the number of
      seconds it was made from. */
  lemma TimedeltaWithinDay(seconds: int)
    requires 0 <= seconds < 86400
    ensures IsClock(TimedeltaStr(seconds)) && ClockSeconds(TimedeltaStr(seconds)) == seconds
  {
    HoursMinutesSeconds(seconds);
    var hh, mm, ss := seconds / 60 / 60, seconds / 60 % 60, seconds % 60;
    var h, m, s := NatStr(hh), Pad2(mm), Pad2(ss);
    assert seconds / 86400 == 0 && seconds % 86400 == seconds;
    var t := TimedeltaStr(seconds);
    assert t == h + ":" + m + ":" + s;
    NatStrRoundTrip(hh);
    NatStrDigits(hh);
    Pad2RoundTrip(mm);
    Pad2RoundTrip(ss);
    ClockParts(h, m, s);
    ClockShape(h, m, s);
  }

  /** `external_downloader_args`: the trim window unless the full source is wanted. */
  function TrimArgs(startSeconds: int, endSeconds: int, fullSource: bool): seq<string> {
    (if fullSource then [] else ["-ss", TimedeltaStr(startSeconds), "-to", TimedeltaStr(endSeconds)])
    + ["-loglevel", "panic"]
  }

  /** The arguments always end in `-loglevel panic`; without `full_source` they
      start at the segment's start and stop at its end, as clocks that read back as
      those times. */
  lemma TrimArgsSpec(startSeconds: int, endSeconds: int, fullSource: bool)
    ensures var a := TrimArgs(startSeconds, endSeconds, fullSource);
      && |a| == (if fullSource then 2 else 6)
      && a[|a| - 2..] == ["-loglevel", "panic"]
      && (!fullSource ==> a[0] == "-ss" && a[2] == "-to")
      && (!fullSource && 0 <= startSeconds < 86400 ==> |a[1]| >= 6 && ClockSeconds(a[1]) == startSeconds)
      && (!fullSource && 0 <= endSeconds < 86400 ==> |a[3]| >= 6 && ClockSeconds(a[3]) == endSeconds)
  {
    if !fullSource && 0 <= startSeconds < 86400 {
      TimedeltaWithinDay(startSeconds);
    }
    if !fullSource && 0 <= endSeconds < 86400 {
      TimedeltaWithinDay(endSeconds);
    }
  }

  /** `outtmpl`: the title and extension the downloader fills in, under the
      partition's directory. */
  function OutputTemplate(outputDir: string, dir: Partition): string {
    outputDir + "/" + DirName(dir) + "/%(title)s.%(ext)s"
  }

  /** Every file lands under `<output_dir>/<partition>/`, and the template tells
      the partitions apart. */
  lemma OutputTemplateSpec(outputDir: string, d1: Partition, d2: Partition)
    ensures IsPrefix(outputDir + "/" + DirName(d1) + "/", OutputTemplate(outputDir, d1))
    ensures OutputTemplate(outputDir, d1) == OutputTemplate(outputDir, d2) ==> d1 == d2
  {
  }

  /** A value of the options dict. */
  datatype OptValue = Flag(b: bool) | Str(s: string) | Strs(ss: seq<string>)

  /** `if cookies_file:` — neither None nor the empty string. */
  predicate Truthy(cookiesFile: Option<string>) {
    cookiesFile.Some? && cookiesFile.value != ""
  }

  /** The dict handed to the downloader for one row. */
  predicate OptionsFor(
    opts: map<string, OptValue>, outputDir: string, row: Row, fullSource: bool, cookiesFile: Option<string>)
  {
    && opts.Keys == {"quiet", "ignoreerrors", "format", "outtmpl", "external_downloader", "external_downloader_args"}
                    + (if Truthy(cookiesFile) then {"cookiefile"} else {})
    && opts["quiet"] == Flag(true)
    && opts["ignoreerrors"] == Flag(true)
    && opts["format"] == Str("bestaudio")
    && opts["outtmpl"] == Str(OutputTemplate(outputDir, row.dir))
    && opts["external_downloader"] == Str("ffmpeg")
    && opts["external_downloader_args"] == Strs(TrimArgs(row.seg.startSeconds, row.seg.endSeconds, fullSource))
    && (Truthy(cookiesFile) ==> opts["cookiefile"] == Str(cookiesFile.value))
  }

  /** Builds the options dict, adding `cookiefile` only for a truthy cookie path. */
  method BuildOptions(outputDir: string, row: Row, fullSource: bool, cookiesFile: Option<string>)
    returns (opts: map<string, OptValue>)
    ensures OptionsFor(opts, outputDir, row, fullSource, cookiesFile)
    ensures "cookiefile" in opts <==> Truthy(cookiesFile)
  {
    opts := map[
      "quiet" := Flag(true),
      "ignoreerrors" := Flag(true),
      "format" := Str("bestaudio"),
      "outtmpl" := Str(OutputTemplate(outputDir, row.dir)),
      "external_downloader" := Str("ffmpeg"),
      "external_downloader_args" := Strs(TrimArgs(row.seg.startSeconds, row.seg.endSeconds, fullSource))
    ];
    if Truthy(cookiesFile) {
      opts := opts["cookiefile" := Str(cookiesFile.value)];
    }
  }

  /** What `_download` does with one row: returns early, or hands the video id and
      the options to the downloader. */
  datatype Job = Skipped(row: Row) | Fetch(row: Row, url: string, opts: map<string, OptValue>)

  method Download(
    row: Row, clsId: ClassIds, mixed: bool, outputDir: string, fullSource: bool, cookiesFile: Option<string>)
    returns (d: Job)
    ensures d.row == row
    ensures d.Fetch? <==> Proceeds(row.seg.labels, clsId, mixed)
    ensures d.Fetch? ==> d.url == row.seg.ytid && OptionsFor(d.opts, outputDir, row, fullSource, cookiesFile)
  {
    if !mixed && !LabelsEqual(row.seg.labels, clsId) {
      return Skipped(row);
    }
    var opts := BuildOptions(outputDir, row, fullSource, cookiesFile);
    return Fetch(row, row.seg.ytid, opts);
  }
}
