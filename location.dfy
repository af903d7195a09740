/**
 * Where the plugin keeps the reporter: the WakaTime home directory, the path of the reporter
 * executable in it, and the `--plugin` identification string.
 */
module Location {
  import opened Wrappers
  import opened Text
  import opened Paths
  import opened Platform

  /** The directory created under the user's home when `WAKATIME_HOME` is not usable. */
  const WakatimeDirName: PathName := ".wakatime"

  /**
   * `getWakatimeLocation()`: the `WAKATIME_HOME` environment variable when it is set and not
   * blank, else `.wakatime` under the `user.home` property. Both are parameters.
   */
  function WakatimeLocation(wakatimeHome: Option<string>, userHome: string): (r: Path)
    ensures (wakatimeHome.None? || IsBlank(wakatimeHome.value)) ==>
      r == Path(Parse(userHome).absolute, Names(userHome) + [WakatimeDirName])
    ensures wakatimeHome.Some? && !IsBlank(wakatimeHome.value) ==> r == Parse(wakatimeHome.value)
  {
    NamesOfName(WakatimeDirName);
    if wakatimeHome.None? || IsBlank(wakatimeHome.value) then Resolve(Parse(userHome), Parse(".wakatime"))
    else Parse(wakatimeHome.value)
  }

  /** The fallback home is the `.wakatime` child of the user's home directory. */
  lemma FallbackUnderUserHome(wakatimeHome: Option<string>, userHome: string)
    requires wakatimeHome.None? || IsBlank(wakatimeHome.value)
    requires Parse(userHome) != EmptyPath
    ensures var r := WakatimeLocation(wakatimeHome, userHome);
      StartsWith(r, Parse(userHome)) && |r.names| == |Names(userHome)| + 1
      && r.names[|r.names| - 1] == WakatimeDirName
  {
    var r := WakatimeLocation(wakatimeHome, userHome);
    assert r.names[..|Names(userHome)|] == Names(userHome);
  }

  /** A blank `WAKATIME_HOME` (here a single space) counts as unset. */
  lemma BlankHomeIgnored()
    ensures WakatimeLocation(Some(" "), "/home/u") == Path(true, ["home", "u", ".wakatime"])
  {
    NamesOfJoin(["home", "u"]);
    assert "/home/u" == Render(Path(true, ["home", "u"]));
    ParseRender(Path(true, ["home", "u"]));
  }

  /** The file name of the reporter executable; the `.exe` suffix is added on every system. */
  function CliFileName(os: string, arch: string): (r: string)
    ensures IsPrefix("wakatime-cli-", r) && IsSuffix(".exe", r)
    ensures '/' in r <==> '/' in os || '/' in arch
  {
    var r := "wakatime-cli-" + os + "-" + arch + ".exe";
    assert r[..13] == "wakatime-cli-";
    assert r[|r| - 4..] == ".exe";
    r
  }

  /** A file name of the reporter resolves to a child of the home directory. */
  lemma CliFileInLocation(location: Path, f: string)
    requires IsPrefix("wakatime-cli-", f) && IsSuffix(".exe", f)
    ensures '/' !in f ==>
      Resolve(location, Parse(f)) == Path(location.absolute, location.names + [f])
      && IsSuffix(".exe", Render(Resolve(location, Parse(f))))
  {
    if '/' !in f {
      NamesOfName(f);
      assert f[0] == 'w';
      assert Parse(f) == Path(false, [f]);
      RenderEndsWithLast(location.absolute, location.names, f);
      var rs := Render(Resolve(location, Parse(f)));
      assert rs[|rs| - 4..] == rs[|rs| - |f|..][|f| - 4..];
    }
  }

  /**
   * `getWakatimeCliLocation()`: the executable's file name resolved against the home directory.
   * When the canonical names contain no '/', the file is a direct child of the home directory,
   * and the rendered path ends with ".exe".
   */
  function WakatimeCliLocation(location: Path, osNameProp: string, archProp: string): (r: Path)
    ensures var f := CliFileName(OsName(osNameProp), Architecture(osNameProp, archProp));
      '/' !in f ==>
        r == Path(location.absolute, location.names + [f])
        && IsSuffix(".exe", Render(r))
  {
    var f := CliFileName(OsName(osNameProp), Architecture(osNameProp, archProp));
    CliFileInLocation(location, f);
    Resolve(location, Parse(f))
  }

  /** `getPluginString()`: `{app}/{appVersion} {app}-wakatime/{pluginVersion}`. */
  function PluginString(app: string, appVersion: string, pluginVersion: string): (r: string)
    ensures IsPrefix(app + "/", r)
    ensures IsSuffix("-wakatime/" + pluginVersion, r)
  {
    var r := app + "/" + appVersion + " " + app + "-wakatime/" + pluginVersion;
    assert r[..|app + "/"|] == app + "/";
    assert r[|r| - |"-wakatime/" + pluginVersion|..] == "-wakatime/" + pluginVersion;
    r
  }

  /** How the reporter splits a plugin string: the application, its version and the plugin version. */
  function ParsePluginString(s: string): Option<(string, string, string)> {
    match SplitFirst(s, ' ')
    case None => None
    case Some(halves) =>
      match SplitFirst(halves.0, '/')
      case None => None
      case Some(product) =>
        var marker := product.0 + "-wakatime/";
        if IsPrefix(marker, halves.1) then Some((product.0, product.1, halves.1[|marker|..]))
        else None
  }

  /**
   * The plugin string names its application, the application's version and the plugin's
   * version unambiguously, as long as the first two carry no space and the name no '/'.
   */
  lemma PluginStringRoundTrip(app: string, appVersion: string, pluginVersion: string)
    requires ' ' !in app && '/' !in app && ' ' !in appVersion
    ensures ParsePluginString(PluginString(app, appVersion, pluginVersion)) == Some((app, appVersion, pluginVersion))
  {
    var head := app + "/" + appVersion;
    var tail := app + "-wakatime/" + pluginVersion;
    assert PluginString(app, appVersion, pluginVersion) == head + [' '] + tail;
    SplitFirstOfJoin(head, tail, ' ');
    assert head == app + ['/'] + appVersion;
    SplitFirstOfJoin(app, appVersion, '/');
    var marker := app + "-wakatime/";
    assert tail[..|marker|] == marker;
    assert tail[|marker|..] == pluginVersion;
  }
}
