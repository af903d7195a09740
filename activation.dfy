/**
 * `onEnable()` after the settings are registered: check the platform, look up the latest
 * reporter version, download the archive, extract it into the WakaTime home, delete it,
 * make the reporter executable off Windows, then register the listeners and arm the
 * scheduler. The version lookup, the download and the deletion are network or file-system
 * effects and arrive as outcomes; the extraction is the one of `FileUtil`.
 */
module Activation {
  import opened Wrappers
  import opened Text
  import opened Paths
  import opened Platform
  import opened Location
  import opened Command
  import opened ZipExtract

  /** The steps `onEnable()` completes, in the order it completes them. */
  datatype Stage =
    | PlatformChecked
    | VersionFound(version: string)
    | Downloaded(archive: Path)
    | Extracted
    | ArchiveDeleted
    | MarkedExecutable(file: Path)
    | ListenersAdded
    | Scheduled

  /**
   * How it ends: returned early after a logged error, ended by an exception it does not catch
   * (`Files.newInputStream(null)` after a failed download, `createDirectories(null)` during the
   * extraction), or armed.
   */
  datatype Ending =
    | Unsupported
    | NoVersion
    | DownloadCrashed
    | ExtractFailed(failure: Failure)
    | ExtractCrashed
    | DeleteFailed
    | Armed

  datatype Activated = Activated(trace: seq<Stage>, ending: Ending, fs: FileSystem)

  /** The archive `downloadWakatimeCLI()` writes: `wakatime-cli-{version}.zip` in the home. */
  function ArchivePath(location: Path, version: string): Path {
    Resolve(location, Parse("wakatime-cli-" + version + ".zip"))
  }

  /** The file `onEnable()` marks executable: the reporter's name without ".exe". */
  function MarkedFile(location: Path, host: Host): Path {
    Resolve(location, Parse("wakatime-cli-" + OsName(host.osNameProp) + "-" + Architecture(host.osNameProp, host.archProp)))
  }

  /** The platform test of `onEnable()`. */
  predicate Supported(host: Host) {
    CheckMissingPlatformSupport(host.osNameProp, host.archProp).Ok?
  }

  /** Every step, when every step succeeds; `marked` is the file made executable, if any. */
  function AllSteps(version: string, archive: Path, marked: Option<Path>): seq<Stage> {
    [PlatformChecked] + [VersionFound(version)] + [Downloaded(archive)] + [Extracted] + [ArchiveDeleted]
    + (if marked.Some? then [MarkedExecutable(marked.value)] else [])
    + [ListenersAdded, Scheduled]
  }

  /**
   * The control flow of `onEnable()` over the outcomes of its steps: the platform test, the
   * version lookup, the download, the extraction run and the deletion.
   */
  function Steps(supported: bool, latestVersion: Option<string>, downloadOk: bool, archive: Path,
                 fs: FileSystem, run: Run, deleteOk: bool, marked: Option<Path>): (a: Activated)
    ensures a.fs == (if supported && latestVersion.Some? && downloadOk then run.fs else fs)
    ensures a.fs != fs ==> |a.trace| >= 3 && a.trace[2] == Downloaded(archive)
    ensures a.ending.ExtractFailed? ==> run.failure == Some(a.ending.failure)
  {
    if !supported then Activated([], Unsupported, fs)
    else if latestVersion.None? then Activated([PlatformChecked], NoVersion, fs)
    else
      var found := [PlatformChecked] + [VersionFound(latestVersion.value)];
      if !downloadOk then Activated(found, DownloadCrashed, fs)
      else
        var downloaded := found + [Downloaded(archive)];
        if run.failure == Some(NullParent) then Activated(downloaded, ExtractCrashed, run.fs)
        else if run.failure.Some? then Activated(downloaded, ExtractFailed(run.failure.value), run.fs)
        else if !deleteOk then Activated(downloaded + [Extracted], DeleteFailed, run.fs)
        else Activated(AllSteps(latestVersion.value, archive, marked), Armed, run.fs)
  }

  /** The file marked executable: none on Windows. */
  function MarkTarget(location: Path, host: Host): Option<Path> {
    if IsWindows(host.osNameProp) then None else Some(MarkedFile(location, host))
  }

  /**
   * `onEnable()` from the platform check on, over the given outcomes of its external steps.
   * The files change only by the extraction, with the guard as written, into the WakaTime
   * home, and only after the download; an extraction failure is the one the run reports.
   */
  function Activate(host: Host, latestVersion: Option<string>, downloadOk: bool, entries: seq<Entry>,
                    fs: FileSystem, deleteOk: bool): (a: Activated)
    ensures var run := Unzip(fs, WakatimeLocation(host.wakatimeHome, host.userHome), entries, AsWritten);
      a.fs == (if Supported(host) && latestVersion.Some? && downloadOk then run.fs else fs)
    ensures a.fs != fs ==> |a.trace| >= 3 && a.trace[2].Downloaded?
    ensures a.ending.ExtractFailed? ==>
      Some(a.ending.failure) == Unzip(fs, WakatimeLocation(host.wakatimeHome, host.userHome), entries, AsWritten).failure
  {
    var location := WakatimeLocation(host.wakatimeHome, host.userHome);
    var version := if latestVersion.Some? then latestVersion.value else "";
    Steps(Supported(host), latestVersion, downloadOk, ArchivePath(location, version),
          fs, Unzip(fs, location, entries, AsWritten), deleteOk, MarkTarget(location, host))
  }

  /** `onEnable()`, step by step with early returns, extracting into `store`. */
  method OnEnable(host: Host, latestVersion: Option<string>, downloadOk: bool, entries: seq<Entry>,
                  store: FileStore, deleteOk: bool)
    returns (trace: seq<Stage>, ending: Ending)
    modifies store
    ensures Activated(trace, ending, store.files)
      == Activate(host, latestVersion, downloadOk, entries, old(store.files), deleteOk)
  {
    var location := WakatimeLocation(host.wakatimeHome, host.userHome);
    ghost var fs := store.files;
    ghost var run := Unzip(fs, location, entries, AsWritten);
    ghost var marked := MarkTarget(location, host);
    ghost var goal := Activate(host, latestVersion, downloadOk, entries, fs, deleteOk);
    if !Supported(host) {
      assert goal == Activated([], Unsupported, fs);
      return [], Unsupported;
    }
    trace := [PlatformChecked];
    if latestVersion.None? {
      assert goal == Activated(trace, NoVersion, fs);
      return trace, NoVersion;
    }
    var version := latestVersion.value;
    var archive := ArchivePath(location, version);
    assert goal == Steps(true, latestVersion, downloadOk, archive, fs, run, deleteOk, marked);
    trace := trace + [VersionFound(version)];
    if !downloadOk {
      return trace, DownloadCrashed;
    }
    trace := trace + [Downloaded(archive)];
    var failure := UnzipFile(store, location, entries);
    assert run == Run(failure, store.files);
    if failure == Some(NullParent) {
      return trace, ExtractCrashed;
    }
    if failure.Some? {
      return trace, ExtractFailed(failure.value);
    }
    trace := trace + [Extracted];
    if !deleteOk {
      return trace, DeleteFailed;
    }
    trace := trace + [ArchiveDeleted];
    if !IsWindows(host.osNameProp) {
      trace := trace + [MarkedExecutable(MarkedFile(location, host))];
    }
    trace := trace + [ListenersAdded, Scheduled];
    ending := Armed;
  }

  /**
   * With the default home, `.wakatime` under the user's home, the guard as written is sound:
   * whatever the archive holds, `onEnable()` removes no path, turns no existing path into a
   * directory, writes only on the line of descent of the home and every file inside it.
   */
  lemma DefaultHomeContained(host: Host, latestVersion: Option<string>, downloadOk: bool, entries: seq<Entry>,
                             fs: FileSystem, deleteOk: bool)
    requires host.wakatimeHome.None? || IsBlank(host.wakatimeHome.value)
    ensures Contained(fs, Activate(host, latestVersion, downloadOk, entries, fs, deleteOk).fs,
                      WakatimeLocation(host.wakatimeHome, host.userHome))
  {
    var location := WakatimeLocation(host.wakatimeHome, host.userHome);
    assert location.names[|location.names| - 1] == WakatimeDirName;
    assert WellBased(location);
    UnzipContained(fs, location, entries, AsWritten);
  }

  /** Whatever the outcomes, the steps done are a prefix of all the steps, in `onEnable()`'s order. */
  lemma StepsPrefix(supported: bool, latestVersion: Option<string>, downloadOk: bool, archive: Path,
                    fs: FileSystem, run: Run, deleteOk: bool, marked: Option<Path>)
    requires latestVersion.Some?
    ensures Steps(supported, latestVersion, downloadOk, archive, fs, run, deleteOk, marked).trace
      <= AllSteps(latestVersion.value, archive, marked)
  {
    var full := AllSteps(latestVersion.value, archive, marked);
    assert full[..2] == [PlatformChecked, VersionFound(latestVersion.value)];
    assert full[..3] == full[..2] + [Downloaded(archive)];
    assert full[..4] == full[..3] + [Extracted];
  }

  /** The steps `onEnable()` completes are a prefix of all its steps. */
  lemma StepsInOrder(host: Host, latestVersion: Option<string>, downloadOk: bool, entries: seq<Entry>,
                     fs: FileSystem, deleteOk: bool)
    requires latestVersion.Some?
    ensures var location := WakatimeLocation(host.wakatimeHome, host.userHome);
      Activate(host, latestVersion, downloadOk, entries, fs, deleteOk).trace
        <= AllSteps(latestVersion.value, ArchivePath(location, latestVersion.value), MarkTarget(location, host))
  {
    var location := WakatimeLocation(host.wakatimeHome, host.userHome);
    StepsPrefix(Supported(host), latestVersion, downloadOk, ArchivePath(location, latestVersion.value),
                fs, Unzip(fs, location, entries, AsWritten), deleteOk, MarkTarget(location, host));
  }

  /** An unsupported platform returns before anything else happens. */
  lemma UnsupportedStopsFirst(host: Host, latestVersion: Option<string>, downloadOk: bool, entries: seq<Entry>,
                              fs: FileSystem, deleteOk: bool)
    requires !Supported(host)
    ensures Activate(host, latestVersion, downloadOk, entries, fs, deleteOk) == Activated([], Unsupported, fs)
  {
  }

  /** Without a version the plugin returns before downloading and leaves the files alone. */
  lemma NoVersionStopsBeforeDownload(host: Host, downloadOk: bool, entries: seq<Entry>, fs: FileSystem, deleteOk: bool)
    requires Supported(host)
    ensures var a := Activate(host, None, downloadOk, entries, fs, deleteOk);
      a.ending == NoVersion && a.fs == fs
      && forall i :: 0 <= i < |a.trace| ==> !a.trace[i].Downloaded?
  {
  }

  /** The scheduler is armed exactly when every step succeeded, and arming is the last step. */
  lemma ArmedIffAllSucceeded(supported: bool, latestVersion: Option<string>, downloadOk: bool, archive: Path,
                             fs: FileSystem, run: Run, deleteOk: bool, marked: Option<Path>)
    ensures var a := Steps(supported, latestVersion, downloadOk, archive, fs, run, deleteOk, marked);
      (Scheduled in a.trace <==> a.ending == Armed)
      && (a.ending == Armed <==> supported && latestVersion.Some? && downloadOk && run.failure.None? && deleteOk)
      && (a.ending == Armed ==> |a.trace| >= 2 && a.trace[|a.trace| - 2..] == [ListenersAdded, Scheduled])
  {
    var a := Steps(supported, latestVersion, downloadOk, archive, fs, run, deleteOk, marked);
    if a.ending == Armed {
      var t := AllSteps(latestVersion.value, archive, marked);
      assert t[|t| - 2..] == [ListenersAdded, Scheduled];
    }
  }

  /** `onEnable()` arms the scheduler exactly when every step succeeded. */
  lemma ScheduledIffAllSucceeded(host: Host, latestVersion: Option<string>, downloadOk: bool, entries: seq<Entry>,
                                 fs: FileSystem, deleteOk: bool)
    ensures var a := Activate(host, latestVersion, downloadOk, entries, fs, deleteOk);
      (Scheduled in a.trace <==> a.ending == Armed)
      && (a.ending == Armed <==>
            Supported(host) && latestVersion.Some? && downloadOk
            && Unzip(fs, WakatimeLocation(host.wakatimeHome, host.userHome), entries, AsWritten).failure.None? && deleteOk)
      && (a.ending == Armed ==> |a.trace| >= 2 && a.trace[|a.trace| - 2..] == [ListenersAdded, Scheduled])
  {
    var location := WakatimeLocation(host.wakatimeHome, host.userHome);
    var version := if latestVersion.Some? then latestVersion.value else "";
    ArmedIffAllSucceeded(Supported(host), latestVersion, downloadOk, ArchivePath(location, version),
                         fs, Unzip(fs, location, entries, AsWritten), deleteOk, MarkTarget(location, host));
  }

  /** A failed extraction or deletion ends the run before the listeners and the scheduler, keeping what was extracted. */
  lemma FailureStopsListeners(supported: bool, latestVersion: Option<string>, downloadOk: bool, archive: Path,
                              fs: FileSystem, run: Run, deleteOk: bool, marked: Option<Path>)
    ensures var a := Steps(supported, latestVersion, downloadOk, archive, fs, run, deleteOk, marked);
      a.ending.ExtractFailed? || a.ending.ExtractCrashed? || a.ending == DeleteFailed ==>
        ListenersAdded !in a.trace && Scheduled !in a.trace && a.fs == run.fs
        && (a.ending == DeleteFailed <==> Extracted in a.trace)
  {
  }

  /** `onEnable()` returns before the listeners when the extraction or the deletion fails. */
  lemma ExtractionFailureStopsListeners(host: Host, latestVersion: Option<string>, downloadOk: bool,
                                        entries: seq<Entry>, fs: FileSystem, deleteOk: bool)
    ensures var a := Activate(host, latestVersion, downloadOk, entries, fs, deleteOk);
      a.ending.ExtractFailed? || a.ending.ExtractCrashed? || a.ending == DeleteFailed ==>
        ListenersAdded !in a.trace && Scheduled !in a.trace
        && a.fs == Unzip(fs, WakatimeLocation(host.wakatimeHome, host.userHome), entries, AsWritten).fs
  {
    var location := WakatimeLocation(host.wakatimeHome, host.userHome);
    var version := if latestVersion.Some? then latestVersion.value else "";
    FailureStopsListeners(Supported(host), latestVersion, downloadOk, ArchivePath(location, version),
                          fs, Unzip(fs, location, entries, AsWritten), deleteOk, MarkTarget(location, host));
  }

  /**
   * Off Windows the file marked executable is not the file the command line runs: the mark
   * goes to a name without ".exe", the command always names one with it.
   */
  lemma MarkedFileIsNotCli(location: Path, host: Host)
    requires '/' !in OsName(host.osNameProp) && '/' !in Architecture(host.osNameProp, host.archProp)
    ensures var stem := "wakatime-cli-" + OsName(host.osNameProp) + "-" + Architecture(host.osNameProp, host.archProp);
      MarkedFile(location, host) == Path(location.absolute, location.names + [stem])
      && WakatimeCliLocation(location, host.osNameProp, host.archProp)
        == Path(location.absolute, location.names + [stem + ".exe"])
      && MarkedFile(location, host) != WakatimeCliLocation(location, host.osNameProp, host.archProp)
  {
    var stem := "wakatime-cli-" + OsName(host.osNameProp) + "-" + Architecture(host.osNameProp, host.archProp);
    StemNames(OsName(host.osNameProp), Architecture(host.osNameProp, host.archProp));
    var marked := MarkedFile(location, host);
    var cli := WakatimeCliLocation(location, host.osNameProp, host.archProp);
    assert marked.names[|location.names|] == stem;
    assert cli.names[|location.names|] == stem + ".exe";
  }

  /**
   * The reporter's location as evidently intended: ".exe" only on Windows, the system on which
   * nothing is marked executable. Then the file `onEnable()` marks executable is the file the
   * command line runs, and on Windows the location is the one the code computes.
   */
  function IntendedCliLocation(location: Path, host: Host): (r: Path)
    requires '/' !in OsName(host.osNameProp) && '/' !in Architecture(host.osNameProp, host.archProp)
    ensures IsWindows(host.osNameProp) ==> r == WakatimeCliLocation(location, host.osNameProp, host.archProp)
    ensures !IsWindows(host.osNameProp) ==> MarkTarget(location, host) == Some(r)
    ensures !IsWindows(host.osNameProp) ==> r != WakatimeCliLocation(location, host.osNameProp, host.archProp)
  {
    var stem := "wakatime-cli-" + OsName(host.osNameProp) + "-" + Architecture(host.osNameProp, host.archProp);
    MarkedFileIsNotCli(location, host);
    Resolve(location, Parse(if IsWindows(host.osNameProp) then stem + ".exe" else stem))
  }

  /** The stem of the reporter's name is one path element, and the reporter's file name extends it. */
  lemma StemNames(os: string, arch: string)
    requires '/' !in os && '/' !in arch
    ensures var stem := "wakatime-cli-" + os + "-" + arch;
      '/' !in stem && Parse(stem) == Path(false, [stem]) && CliFileName(os, arch) == stem + ".exe"
      && stem != stem + ".exe"
  {
    var stem := "wakatime-cli-" + os + "-" + arch;
    assert '/' !in stem;
    NamesOfName(stem);
    assert stem[0] == 'w';
    assert |stem + ".exe"| == |stem| + 4;
  }
}
