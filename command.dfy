/**
 * `buildCliCommand()`: the argument vector of one reporter run, built by appending flags in a
 * fixed order to a growing list. The host facts, the two settings and the stored API key are
 * parameters. Beside the builder stands a reading of the vector as the reporter takes it (a
 * flag, then its value when it has one), against which the builder is proved.
 */
module Command {
  import opened Wrappers
  import opened Text
  import opened Numbers
  import opened Paths
  import opened Platform
  import opened Location
  import opened Heartbeats

  /** What the host contributes: environment, system properties, and the application's identity. */
  datatype Host = Host(
    wakatimeHome: Option<string>,
    userHome: string,
    osNameProp: string,
    archProp: string,
    appName: string,
    appVersion: string)

  /** The settings `wakatime:is_debug` and `wakatime:proxy`; `None` is a `null` value. */
  datatype Settings = Settings(debug: Option<bool>, proxy: Option<string>)

  /** The values the settings are registered with. */
  const DefaultSettings: Settings := Settings(Some(false), Some(""))

  /** The `NullPointerException`s building or launching a command can raise. */
  datatype Fault = NullTimestamp | NullApiKey | NullWrite | NullUnsavedFile | NullBuilding | NullEntity

  /** The first argument: the reporter executable under the WakaTime home. */
  function CliPath(host: Host): string {
    Render(WakatimeCliLocation(WakatimeLocation(host.wakatimeHome, host.userHome), host.osNameProp, host.archProp))
  }

  /** A heartbeat whose fields that are dereferenced or unboxed are all set. */
  predicate Complete(h: Heartbeat) {
    h.entity.Some? && h.timestamp.Some? && h.isWrite.Some? && h.isUnsavedFile.Some? && h.isBuilding.Some?
  }

  /**
   * The exception a command for `h` ends in, in the order the code meets the `null`s: the
   * timestamp is rendered first, then the key is checked, then the three flags are unboxed; a
   * `null` entity passes through the list and is refused when the process is started.
   */
  function FirstFault(h: Heartbeat, apiKey: Option<string>): (f: Option<Fault>)
    ensures f.None? <==> Complete(h) && apiKey.Some?
    ensures f == Some(NullTimestamp) <==> h.timestamp.None?
    ensures f == Some(NullApiKey) <==> h.timestamp.Some? && apiKey.None?
    ensures f == Some(NullWrite) <==> h.timestamp.Some? && apiKey.Some? && h.isWrite.None?
    ensures f == Some(NullUnsavedFile) <==>
      h.timestamp.Some? && apiKey.Some? && h.isWrite.Some? && h.isUnsavedFile.None?
    ensures f == Some(NullBuilding) <==>
      h.timestamp.Some? && apiKey.Some? && h.isWrite.Some? && h.isUnsavedFile.Some? && h.isBuilding.None?
    ensures f == Some(NullEntity) <==>
      h.timestamp.Some? && apiKey.Some? && h.isWrite.Some? && h.isUnsavedFile.Some? && h.isBuilding.Some?
      && h.entity.None?
  {
    if h.timestamp.None? then Some(NullTimestamp)
    else if apiKey.None? then Some(NullApiKey)
    else if h.isWrite.None? then Some(NullWrite)
    else if h.isUnsavedFile.None? then Some(NullUnsavedFile)
    else if h.isBuilding.None? then Some(NullBuilding)
    else if h.entity.None? then Some(NullEntity)
    else None
  }

  function IntArg(n: Option<Int32>): Option<string> {
    if n.Some? then Some(IntToString(n.value)) else None
  }

  /** A flag with its value when the value is non-null, nothing otherwise. */
  function Valued(flag: string, value: Option<string>): seq<string> {
    if value.Some? then [flag, value.value] else []
  }

  /** A flag on its own when `on` holds. */
  function Switch(flag: string, on: bool): seq<string> {
    if on then [flag] else []
  }

  /** An argument vector from its parts, in the order `buildCliCommand()` appends them. */
  function Assemble(cli: string, plugin: string, entity: string, time: string, key: Option<string>,
                    lines: Option<string>, lineno: Option<string>, cursorpos: Option<string>,
                    project: Option<string>, language: Option<string>,
                    write: bool, unsaved: bool, category: Option<string>,
                    verbose: bool, proxy: Option<string>, extra: bool): seq<string>
  {
    [cli]
    + ["--plugin", plugin]
    + ["--entity", entity]
    + ["--time", time]
    + Valued("--key", key)
    + Valued("--lines-in-file", lines)
    + Valued("--lineno", lineno)
    + Valued("--cursorpos", cursorpos)
    + Valued("--alternate-project", project)
    + Valued("--alternate-language", language)
    + Switch("--write", write)
    + Switch("--is-unsaved-entity", unsaved)
    + Valued("--category", category)
    + Switch("--verbose", verbose)
    + Valued("--proxy", proxy)
    + Switch("--extra-heartbeats", extra)
  }

  /**
   * The argument vector for a heartbeat: a key only when non-empty, a category only when
   * building. It starts with the reporter, the plugin string, the entity and the time.
   */
  function CommandLine(h: Heartbeat, apiKey: string, hasExtras: bool, host: Host, pluginVersion: string, settings: Settings): (r: seq<string>)
    requires Complete(h)
    ensures |r| >= 7 && r[..7] == [CliPath(host), "--plugin", PluginString(host.appName, host.appVersion, pluginVersion),
                                   "--entity", h.entity.value, "--time", PlainString(h.timestamp.value)]
  {
    var key := if apiKey != "" then Some(apiKey) else None;
    var category := if h.isBuilding.value then Some("building") else None;
    var plugin := PluginString(host.appName, host.appVersion, pluginVersion);
    var time := PlainString(h.timestamp.value);
    var lines, lineno, cursorpos := IntArg(h.lineCount), IntArg(h.lineNumber), IntArg(h.cursorPosition);
    var verbose := settings.debug == Some(true);
    AssemblePrefix(CliPath(host), plugin, h.entity.value, time, key, lines, lineno, cursorpos, h.project, h.language,
                   h.isWrite.value, h.isUnsavedFile.value, category, verbose, settings.proxy, hasExtras);
    Assemble(CliPath(host), plugin, h.entity.value, time, key, lines, lineno, cursorpos, h.project, h.language,
             h.isWrite.value, h.isUnsavedFile.value, category, verbose, settings.proxy, hasExtras)
  }

  /** Appending to a vector keeps its first seven elements. */
  lemma HeadKept(s: seq<string>, t: seq<string>, head: seq<string>)
    requires |head| == 7 && |s| >= 7 && s[..7] == head
    ensures |s + t| >= 7 && (s + t)[..7] == head
  {
    assert (s + t)[..7] == s[..7];
  }

  /** Every assembled vector starts with the executable, the plugin string, the entity and the time. */
  lemma AssemblePrefix(cli: string, plugin: string, entity: string, time: string, key: Option<string>,
                       lines: Option<string>, lineno: Option<string>, cursorpos: Option<string>,
                       project: Option<string>, language: Option<string>,
                       write: bool, unsaved: bool, category: Option<string>,
                       verbose: bool, proxy: Option<string>, extra: bool)
    ensures var r := Assemble(cli, plugin, entity, time, key, lines, lineno, cursorpos, project, language,
                              write, unsaved, category, verbose, proxy, extra);
      |r| >= 7 && r[..7] == [cli, "--plugin", plugin, "--entity", entity, "--time", time]
  {
    var head := [cli, "--plugin", plugin, "--entity", entity, "--time", time];
    var v := [cli] + ["--plugin", plugin] + ["--entity", entity] + ["--time", time];
    assert v == head;
    HeadKept(v, Valued("--key", key), head);
    v := v + Valued("--key", key);
    HeadKept(v, Valued("--lines-in-file", lines), head);
    v := v + Valued("--lines-in-file", lines);
    HeadKept(v, Valued("--lineno", lineno), head);
    v := v + Valued("--lineno", lineno);
    HeadKept(v, Valued("--cursorpos", cursorpos), head);
    v := v + Valued("--cursorpos", cursorpos);
    HeadKept(v, Valued("--alternate-project", project), head);
    v := v + Valued("--alternate-project", project);
    HeadKept(v, Valued("--alternate-language", language), head);
    v := v + Valued("--alternate-language", language);
    HeadKept(v, Switch("--write", write), head);
    v := v + Switch("--write", write);
    HeadKept(v, Switch("--is-unsaved-entity", unsaved), head);
    v := v + Switch("--is-unsaved-entity", unsaved);
    HeadKept(v, Valued("--category", category), head);
    v := v + Valued("--category", category);
    HeadKept(v, Switch("--verbose", verbose), head);
    v := v + Switch("--verbose", verbose);
    HeadKept(v, Valued("--proxy", proxy), head);
    v := v + Valued("--proxy", proxy);
    HeadKept(v, Switch("--extra-heartbeats", extra), head);
  }

  /**
   * How every assembled vector ends: `--extra-heartbeats` last when `extra` holds, and a
   * non-null proxy, with its value, right before that.
   */
  lemma AssembleSuffix(cli: string, plugin: string, entity: string, time: string, key: Option<string>,
                       lines: Option<string>, lineno: Option<string>, cursorpos: Option<string>,
                       project: Option<string>, language: Option<string>,
                       write: bool, unsaved: bool, category: Option<string>,
                       verbose: bool, proxy: Option<string>, extra: bool)
    ensures var r := Assemble(cli, plugin, entity, time, key, lines, lineno, cursorpos, project, language,
                              write, unsaved, category, verbose, proxy, extra);
      (extra ==> |r| >= 1 && r[|r| - 1] == "--extra-heartbeats")
      && (proxy.Some? ==>
            |r| >= 3 && r[|r| - (if extra then 3 else 2)..] == ["--proxy", proxy.value] + Switch("--extra-heartbeats", extra))
  {
    var front := [cli] + ["--plugin", plugin] + ["--entity", entity] + ["--time", time] + Valued("--key", key)
      + Valued("--lines-in-file", lines) + Valued("--lineno", lineno) + Valued("--cursorpos", cursorpos)
      + Valued("--alternate-project", project) + Valued("--alternate-language", language)
      + Switch("--write", write) + Switch("--is-unsaved-entity", unsaved) + Valued("--category", category)
      + Switch("--verbose", verbose);
    var r := front + Valued("--proxy", proxy) + Switch("--extra-heartbeats", extra);
    if proxy.Some? {
      var tail := ["--proxy", proxy.value] + Switch("--extra-heartbeats", extra);
      assert r == front + tail;
      assert r[|front|..] == tail;
    }
  }

  /**
   * The converse of the extras clause fails by position alone: a proxy setting that reads
   * "--extra-heartbeats" puts that string last although there are no extra heartbeats.
   */
  lemma ProxyValueMimicsExtras(cli: string, plugin: string, entity: string, time: string, key: Option<string>,
                               lines: Option<string>, lineno: Option<string>, cursorpos: Option<string>,
                               project: Option<string>, language: Option<string>,
                               write: bool, unsaved: bool, category: Option<string>, verbose: bool)
    ensures var r := Assemble(cli, plugin, entity, time, key, lines, lineno, cursorpos, project, language,
                              write, unsaved, category, verbose, Some("--extra-heartbeats"), false);
      |r| >= 1 && r[|r| - 1] == "--extra-heartbeats"
  {
    AssembleSuffix(cli, plugin, entity, time, key, lines, lineno, cursorpos, project, language,
                   write, unsaved, category, verbose, Some("--extra-heartbeats"), false);
  }

  /** `buildCliCommand()` followed by the `null` check of `ProcessBuilder.start()`. */
  method BuildCliCommand(h: Heartbeat, apiKey: Option<string>, extras: seq<Heartbeat>, host: Host,
                         pluginVersion: string, settings: Settings)
    returns (r: Result<seq<string>, Fault>)
    ensures FirstFault(h, apiKey).Some? ==> r == Err(FirstFault(h, apiKey).value)
    ensures FirstFault(h, apiKey).None? ==>
      r == Ok(CommandLine(h, apiKey.value, |extras| > 0, host, pluginVersion, settings))
  {
    var cmds: seq<string> := [CliPath(host)];
    cmds := cmds + ["--plugin", PluginString(host.appName, host.appVersion, pluginVersion)];
    var entity := if h.entity.Some? then h.entity.value else "";
    cmds := cmds + ["--entity", entity];
    if h.timestamp.None? {
      return Err(NullTimestamp);
    }
    cmds := cmds + ["--time", PlainString(h.timestamp.value)];
    if apiKey.None? {
      return Err(NullApiKey);
    }
    var key := if apiKey.value != "" then Some(apiKey.value) else None;
    cmds := cmds + Valued("--key", key);
    cmds := cmds + Valued("--lines-in-file", IntArg(h.lineCount));
    cmds := cmds + Valued("--lineno", IntArg(h.lineNumber));
    cmds := cmds + Valued("--cursorpos", IntArg(h.cursorPosition));
    cmds := cmds + Valued("--alternate-project", h.project);
    cmds := cmds + Valued("--alternate-language", h.language);
    if h.isWrite.None? {
      return Err(NullWrite);
    }
    cmds := cmds + Switch("--write", h.isWrite.value);
    if h.isUnsavedFile.None? {
      return Err(NullUnsavedFile);
    }
    cmds := cmds + Switch("--is-unsaved-entity", h.isUnsavedFile.value);
    if h.isBuilding.None? {
      return Err(NullBuilding);
    }
    var category := if h.isBuilding.value then Some("building") else None;
    cmds := cmds + Valued("--category", category);
    cmds := cmds + Switch("--verbose", settings.debug == Some(true));
    cmds := cmds + Valued("--proxy", settings.proxy);
    cmds := cmds + Switch("--extra-heartbeats", |extras| > 0);
    if h.entity.None? {
      return Err(NullEntity);
    }
    assert cmds == Assemble(CliPath(host), PluginString(host.appName, host.appVersion, pluginVersion),
                            h.entity.value, PlainString(h.timestamp.value), key,
                            IntArg(h.lineCount), IntArg(h.lineNumber), IntArg(h.cursorPosition), h.project, h.language,
                            h.isWrite.value, h.isUnsavedFile.value, category, settings.debug == Some(true),
                            settings.proxy, |extras| > 0);
    r := Ok(cmds);
  }
}
