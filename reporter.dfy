/**
 * How the reporter reads the argument vector: after the executable, each token is a known
 * flag, followed by a value when the flag takes one. This reading is a reference definition
 * for the flags the plugin emits (the reporter's own parser is not part of this model); the
 * builder is proved against it, field by field.
 */
module Reporter {
  import opened Wrappers
  import opened Text
  import opened Numbers
  import opened Location
  import opened Heartbeats
  import opened Command

  /** The options one command line sets. */
  datatype CliArgs = CliArgs(
    plugin: Option<string>,
    entity: Option<string>,
    time: Option<string>,
    key: Option<string>,
    lines: Option<string>,
    lineno: Option<string>,
    cursorpos: Option<string>,
    project: Option<string>,
    language: Option<string>,
    category: Option<string>,
    proxy: Option<string>,
    write: bool,
    unsaved: bool,
    verbose: bool,
    extra: bool)

  const NoArgs: CliArgs := CliArgs(None, None, None, None, None, None, None, None, None, None, None,
                                   false, false, false, false)

  datatype CliFlag =
    | PluginFlag | EntityFlag | TimeFlag | KeyFlag | LinesFlag | LinenoFlag | CursorFlag
    | ProjectFlag | LanguageFlag | CategoryFlag | ProxyFlag
    | WriteFlag | UnsavedFlag | VerboseFlag | ExtraFlag

  predicate TakesValue(f: CliFlag) {
    !(f.WriteFlag? || f.UnsavedFlag? || f.VerboseFlag? || f.ExtraFlag?)
  }

  function FlagOf(t: string): Option<CliFlag> {
    if t == "--plugin" then Some(PluginFlag)
    else if t == "--entity" then Some(EntityFlag)
    else if t == "--time" then Some(TimeFlag)
    else if t == "--key" then Some(KeyFlag)
    else if t == "--lines-in-file" then Some(LinesFlag)
    else if t == "--lineno" then Some(LinenoFlag)
    else if t == "--cursorpos" then Some(CursorFlag)
    else if t == "--alternate-project" then Some(ProjectFlag)
    else if t == "--alternate-language" then Some(LanguageFlag)
    else if t == "--category" then Some(CategoryFlag)
    else if t == "--proxy" then Some(ProxyFlag)
    else if t == "--write" then Some(WriteFlag)
    else if t == "--is-unsaved-entity" then Some(UnsavedFlag)
    else if t == "--verbose" then Some(VerboseFlag)
    else if t == "--extra-heartbeats" then Some(ExtraFlag)
    else None
  }

  function WithValue(a: CliArgs, f: CliFlag, v: string): CliArgs
    requires TakesValue(f)
  {
    match f
    case PluginFlag => a.(plugin := Some(v))
    case EntityFlag => a.(entity := Some(v))
    case TimeFlag => a.(time := Some(v))
    case KeyFlag => a.(key := Some(v))
    case LinesFlag => a.(lines := Some(v))
    case LinenoFlag => a.(lineno := Some(v))
    case CursorFlag => a.(cursorpos := Some(v))
    case ProjectFlag => a.(project := Some(v))
    case LanguageFlag => a.(language := Some(v))
    case CategoryFlag => a.(category := Some(v))
    case ProxyFlag => a.(proxy := Some(v))
  }

  function WithSwitch(a: CliArgs, f: CliFlag): CliArgs
    requires !TakesValue(f)
  {
    match f
    case WriteFlag => a.(write := true)
    case UnsavedFlag => a.(unsaved := true)
    case VerboseFlag => a.(verbose := true)
    case ExtraFlag => a.(extra := true)
  }

  /** Reads `args` on top of the options `acc` read so far; `None` for an unknown flag or a missing value. */
  function ParseFrom(args: seq<string>, acc: CliArgs): Option<CliArgs>
    decreases |args|
  {
    if args == [] then Some(acc)
    else match FlagOf(args[0])
      case None => None
      case Some(f) =>
        if !TakesValue(f) then ParseFrom(args[1..], WithSwitch(acc, f))
        else if |args| < 2 then None
        else ParseFrom(args[2..], WithValue(acc, f, args[1]))
  }

  /** The executable and the options of a whole argument vector. */
  function ParseArgv(argv: seq<string>): Option<(string, CliArgs)> {
    if argv == [] then None
    else match ParseFrom(argv[1..], NoArgs)
      case None => None
      case Some(a) => Some((argv[0], a))
  }

  /** Reading is left to right: a part read on its own is read the same way in front of more. */
  lemma {:induction false} ParseFromConcat(a: seq<string>, b: seq<string>, acc: CliArgs)
    requires ParseFrom(a, acc).Some?
    ensures ParseFrom(a + b, acc) == ParseFrom(b, ParseFrom(a, acc).value)
    decreases |a|
  {
    if a == [] {
      assert a + b == b;
    } else {
      var f := FlagOf(a[0]).value;
      assert (a + b)[0] == a[0];
      if !TakesValue(f) {
        assert (a + b)[1..] == a[1..] + b;
        ParseFromConcat(a[1..], b, WithSwitch(acc, f));
      } else {
        assert (a + b)[1] == a[1];
        assert (a + b)[2..] == a[2..] + b;
        ParseFromConcat(a[2..], b, WithValue(acc, f, a[1]));
      }
    }
  }

  lemma FlagNamesFirst()
    ensures FlagOf("--plugin") == Some(PluginFlag) && FlagOf("--entity") == Some(EntityFlag)
    ensures FlagOf("--time") == Some(TimeFlag) && FlagOf("--key") == Some(KeyFlag)
    ensures FlagOf("--lines-in-file") == Some(LinesFlag)
  {
  }

  lemma FlagNamesMiddle()
    ensures FlagOf("--lineno") == Some(LinenoFlag) && FlagOf("--cursorpos") == Some(CursorFlag)
    ensures FlagOf("--alternate-project") == Some(ProjectFlag)
    ensures FlagOf("--alternate-language") == Some(LanguageFlag)
    ensures FlagOf("--category") == Some(CategoryFlag)
  {
  }

  lemma FlagNamesLast()
    ensures FlagOf("--proxy") == Some(ProxyFlag) && FlagOf("--write") == Some(WriteFlag)
    ensures FlagOf("--is-unsaved-entity") == Some(UnsavedFlag)
    ensures FlagOf("--verbose") == Some(VerboseFlag) && FlagOf("--extra-heartbeats") == Some(ExtraFlag)
  {
  }

  /** A flag with its value is read as that value, whatever the value looks like. */
  lemma ReadValued(flag: string, f: CliFlag, v: Option<string>, acc: CliArgs)
    requires FlagOf(flag) == Some(f) && TakesValue(f)
    ensures ParseFrom(Valued(flag, v), acc) == Some(if v.Some? then WithValue(acc, f, v.value) else acc)
  {
    if v.Some? {
      assert Valued(flag, v)[2..] == [];
    }
  }

  lemma ReadSwitch(flag: string, f: CliFlag, on: bool, acc: CliArgs)
    requires FlagOf(flag) == Some(f) && !TakesValue(f)
    ensures ParseFrom(Switch(flag, on), acc) == Some(if on then WithSwitch(acc, f) else acc)
  {
    if on {
      assert Switch(flag, on)[1..] == [];
    }
  }

  /** The options the reporter should see for a heartbeat and its run's other inputs. */
  function Intended(h: Heartbeat, apiKey: string, hasExtras: bool, host: Host, pluginVersion: string, settings: Settings): CliArgs
    requires Complete(h)
  {
    CliArgs(
      plugin := Some(PluginString(host.appName, host.appVersion, pluginVersion)),
      entity := h.entity,
      time := Some(PlainString(h.timestamp.value)),
      key := if apiKey != "" then Some(apiKey) else None,
      lines := IntArg(h.lineCount),
      lineno := IntArg(h.lineNumber),
      cursorpos := IntArg(h.cursorPosition),
      project := h.project,
      language := h.language,
      category := if h.isBuilding.value then Some("building") else None,
      proxy := settings.proxy,
      write := h.isWrite.value,
      unsaved := h.isUnsavedFile.value,
      verbose := settings.debug == Some(true),
      extra := hasExtras)
  }

  /** Reading a vector grown by one part continues from the options its front part gives. */
  lemma ReadGrown(front: seq<string>, part: seq<string>, acc: CliArgs, next: CliArgs)
    requires |front| >= 1 && ParseFrom(front[1..], NoArgs) == Some(acc)
    requires ParseFrom(part, acc) == Some(next)
    ensures ParseFrom((front + part)[1..], NoArgs) == Some(next)
  {
    DropOneOfConcat(front, part);
    ParseFromConcat(front[1..], part, NoArgs);
  }

  lemma DropOneOfConcat(a: seq<string>, b: seq<string>)
    requires |a| >= 1
    ensures (a + b)[1..] == a[1..] + b
  {
  }

  /** The executable, then the plugin, entity, time and key parts. */
  lemma ReadHeadParts(cli: string, plugin: string, entity: string, time: string, key: Option<string>)
    ensures var v := [cli] + ["--plugin", plugin] + ["--entity", entity] + ["--time", time] + Valued("--key", key);
      ParseFrom(v[1..], NoArgs)
        == Some(NoArgs.(plugin := Some(plugin)).(entity := Some(entity)).(time := Some(time)).(key := key))
  {
    FlagNamesFirst();
    var v0 := [cli];
    var a0 := NoArgs;
    assert v0[1..] == [];
    var v1 := v0 + ["--plugin", plugin];
    var a1 := a0.(plugin := Some(plugin));
    ReadValued("--plugin", PluginFlag, Some(plugin), a0);
    ReadGrown(v0, ["--plugin", plugin], a0, a1);
    var v2 := v1 + ["--entity", entity];
    var a2 := a1.(entity := Some(entity));
    ReadValued("--entity", EntityFlag, Some(entity), a1);
    ReadGrown(v1, ["--entity", entity], a1, a2);
    var v3 := v2 + ["--time", time];
    var a3 := a2.(time := Some(time));
    ReadValued("--time", TimeFlag, Some(time), a2);
    ReadGrown(v2, ["--time", time], a2, a3);
    ReadValued("--key", KeyFlag, key, a3);
    ReadGrown(v3, Valued("--key", key), a3, a3.(key := key));
  }

  /** The three numeric fields, each with its value when it is non-null. */
  lemma ReadNumberParts(front: seq<string>, acc: CliArgs,
                        lines: Option<string>, lineno: Option<string>, cursorpos: Option<string>)
    requires |front| >= 1 && ParseFrom(front[1..], NoArgs) == Some(acc)
    requires acc.lines.None? && acc.lineno.None? && acc.cursorpos.None?
    ensures var v := front + Valued("--lines-in-file", lines) + Valued("--lineno", lineno)
        + Valued("--cursorpos", cursorpos);
      ParseFrom(v[1..], NoArgs) == Some(acc.(lines := lines).(lineno := lineno).(cursorpos := cursorpos))
  {
    FlagNamesFirst();
    FlagNamesMiddle();
    var v5 := front + Valued("--lines-in-file", lines);
    var a5 := acc.(lines := lines);
    ReadValued("--lines-in-file", LinesFlag, lines, acc);
    ReadGrown(front, Valued("--lines-in-file", lines), acc, a5);
    var v6 := v5 + Valued("--lineno", lineno);
    var a6 := a5.(lineno := lineno);
    ReadValued("--lineno", LinenoFlag, lineno, a5);
    ReadGrown(v5, Valued("--lineno", lineno), a5, a6);
    ReadValued("--cursorpos", CursorFlag, cursorpos, a6);
    ReadGrown(v6, Valued("--cursorpos", cursorpos), a6, a6.(cursorpos := cursorpos));
  }

  /** The project and language fields, each with its value when it is non-null. */
  lemma ReadNameParts(front: seq<string>, acc: CliArgs, project: Option<string>, language: Option<string>)
    requires |front| >= 1 && ParseFrom(front[1..], NoArgs) == Some(acc)
    requires acc.project.None? && acc.language.None?
    ensures var v := front + Valued("--alternate-project", project) + Valued("--alternate-language", language);
      ParseFrom(v[1..], NoArgs) == Some(acc.(project := project).(language := language))
  {
    FlagNamesMiddle();
    var v8 := front + Valued("--alternate-project", project);
    var a8 := acc.(project := project);
    ReadValued("--alternate-project", ProjectFlag, project, acc);
    ReadGrown(front, Valued("--alternate-project", project), acc, a8);
    ReadValued("--alternate-language", LanguageFlag, language, a8);
    ReadGrown(v8, Valued("--alternate-language", language), a8, a8.(language := language));
  }

  /** The three heartbeat switches and the category. */
  lemma ReadHeartbeatFlags(front: seq<string>, acc: CliArgs, write: bool, unsaved: bool, category: Option<string>)
    requires |front| >= 1 && ParseFrom(front[1..], NoArgs) == Some(acc)
    requires !acc.write && !acc.unsaved && acc.category.None?
    ensures var v := front + Switch("--write", write) + Switch("--is-unsaved-entity", unsaved)
        + Valued("--category", category);
      ParseFrom(v[1..], NoArgs) == Some(acc.(write := write).(unsaved := unsaved).(category := category))
  {
    FlagNamesMiddle();
    FlagNamesLast();
    var v10 := front + Switch("--write", write);
    var a10 := acc.(write := write);
    ReadSwitch("--write", WriteFlag, write, acc);
    ReadGrown(front, Switch("--write", write), acc, a10);
    var v11 := v10 + Switch("--is-unsaved-entity", unsaved);
    var a11 := a10.(unsaved := unsaved);
    ReadSwitch("--is-unsaved-entity", UnsavedFlag, unsaved, a10);
    ReadGrown(v10, Switch("--is-unsaved-entity", unsaved), a10, a11);
    ReadValued("--category", CategoryFlag, category, a11);
    ReadGrown(v11, Valued("--category", category), a11, a11.(category := category));
  }

  /** The run's own switches: verbose, proxy and extra heartbeats. */
  lemma ReadRunFlags(front: seq<string>, acc: CliArgs, verbose: bool, proxy: Option<string>, extra: bool)
    requires |front| >= 1 && ParseFrom(front[1..], NoArgs) == Some(acc)
    requires !acc.verbose && acc.proxy.None? && !acc.extra
    ensures var v := front + Switch("--verbose", verbose) + Valued("--proxy", proxy)
        + Switch("--extra-heartbeats", extra);
      ParseFrom(v[1..], NoArgs) == Some(acc.(verbose := verbose).(proxy := proxy).(extra := extra))
  {
    FlagNamesLast();
    var v13 := front + Switch("--verbose", verbose);
    var a13 := acc.(verbose := verbose);
    ReadSwitch("--verbose", VerboseFlag, verbose, acc);
    ReadGrown(front, Switch("--verbose", verbose), acc, a13);
    var v14 := v13 + Valued("--proxy", proxy);
    var a14 := a13.(proxy := proxy);
    ReadValued("--proxy", ProxyFlag, proxy, a13);
    ReadGrown(v13, Valued("--proxy", proxy), a13, a14);
    ReadSwitch("--extra-heartbeats", ExtraFlag, extra, a14);
    ReadGrown(v14, Switch("--extra-heartbeats", extra), a14, a14.(extra := extra));
  }

  /** The heartbeat's own part of an assembled vector, up to the language. */
  lemma ReadFieldParts(cli: string, plugin: string, entity: string, time: string, key: Option<string>,
                       lines: Option<string>, lineno: Option<string>, cursorpos: Option<string>,
                       project: Option<string>, language: Option<string>)
    ensures var v := [cli] + ["--plugin", plugin] + ["--entity", entity] + ["--time", time] + Valued("--key", key)
        + Valued("--lines-in-file", lines) + Valued("--lineno", lineno) + Valued("--cursorpos", cursorpos)
        + Valued("--alternate-project", project) + Valued("--alternate-language", language);
      ParseFrom(v[1..], NoArgs)
        == Some(NoArgs.(plugin := Some(plugin)).(entity := Some(entity)).(time := Some(time)).(key := key)
                  .(lines := lines).(lineno := lineno).(cursorpos := cursorpos)
                  .(project := project).(language := language))
  {
    var head := [cli] + ["--plugin", plugin] + ["--entity", entity] + ["--time", time] + Valued("--key", key);
    ReadHeadParts(cli, plugin, entity, time, key);
    var a4 := NoArgs.(plugin := Some(plugin)).(entity := Some(entity)).(time := Some(time)).(key := key);
    var numbers := head + Valued("--lines-in-file", lines) + Valued("--lineno", lineno)
      + Valued("--cursorpos", cursorpos);
    ReadNumberParts(head, a4, lines, lineno, cursorpos);
    ReadNameParts(numbers, a4.(lines := lines).(lineno := lineno).(cursorpos := cursorpos), project, language);
  }

  /** The heartbeat flags and the run flags, read after the fields. */
  lemma ReadFlagParts(fields: seq<string>, acc: CliArgs, write: bool, unsaved: bool, category: Option<string>,
                      verbose: bool, proxy: Option<string>, extra: bool)
    requires |fields| >= 1 && ParseFrom(fields[1..], NoArgs) == Some(acc)
    requires !acc.write && !acc.unsaved && acc.category.None? && !acc.verbose && acc.proxy.None? && !acc.extra
    ensures var v := fields + Switch("--write", write) + Switch("--is-unsaved-entity", unsaved)
        + Valued("--category", category) + Switch("--verbose", verbose) + Valued("--proxy", proxy)
        + Switch("--extra-heartbeats", extra);
      |v| >= 1 && v[0] == fields[0]
      && ParseFrom(v[1..], NoArgs)
        == Some(acc.(write := write).(unsaved := unsaved).(category := category)
                   .(verbose := verbose).(proxy := proxy).(extra := extra))
  {
    var flags := fields + Switch("--write", write) + Switch("--is-unsaved-entity", unsaved)
      + Valued("--category", category);
    ReadHeartbeatFlags(fields, acc, write, unsaved, category);
    ReadRunFlags(flags, acc.(write := write).(unsaved := unsaved).(category := category), verbose, proxy, extra);
    var v := flags + Switch("--verbose", verbose) + Valued("--proxy", proxy) + Switch("--extra-heartbeats", extra);
    assert v[0] == flags[0] == fields[0];
  }

  /** All parts of an assembled vector, read in turn into the empty options. */
  lemma ReadAllParts(cli: string, plugin: string, entity: string, time: string, key: Option<string>,
                     lines: Option<string>, lineno: Option<string>, cursorpos: Option<string>,
                     project: Option<string>, language: Option<string>,
                     write: bool, unsaved: bool, category: Option<string>,
                     verbose: bool, proxy: Option<string>, extra: bool)
    ensures var v := Assemble(cli, plugin, entity, time, key, lines, lineno, cursorpos, project, language,
                              write, unsaved, category, verbose, proxy, extra);
      |v| >= 1 && v[0] == cli
      && ParseFrom(v[1..], NoArgs)
        == Some(NoArgs.(plugin := Some(plugin)).(entity := Some(entity)).(time := Some(time)).(key := key)
                  .(lines := lines).(lineno := lineno).(cursorpos := cursorpos).(project := project)
                  .(language := language).(write := write).(unsaved := unsaved).(category := category)
                  .(verbose := verbose).(proxy := proxy).(extra := extra))
  {
    var fields := [cli] + ["--plugin", plugin] + ["--entity", entity] + ["--time", time] + Valued("--key", key)
      + Valued("--lines-in-file", lines) + Valued("--lineno", lineno) + Valued("--cursorpos", cursorpos)
      + Valued("--alternate-project", project) + Valued("--alternate-language", language);
    ReadFieldParts(cli, plugin, entity, time, key, lines, lineno, cursorpos, project, language);
    var a9 := NoArgs.(plugin := Some(plugin)).(entity := Some(entity)).(time := Some(time)).(key := key)
      .(lines := lines).(lineno := lineno).(cursorpos := cursorpos).(project := project).(language := language);
    ReadFlagParts(fields, a9, write, unsaved, category, verbose, proxy, extra);
  }

  /** An assembled vector is read as its parts, whatever strings they are. */
  lemma AssembleRead(cli: string, plugin: string, entity: string, time: string, key: Option<string>,
                     lines: Option<string>, lineno: Option<string>, cursorpos: Option<string>,
                     project: Option<string>, language: Option<string>,
                     write: bool, unsaved: bool, category: Option<string>,
                     verbose: bool, proxy: Option<string>, extra: bool)
    ensures ParseArgv(Assemble(cli, plugin, entity, time, key, lines, lineno, cursorpos, project, language,
                               write, unsaved, category, verbose, proxy, extra))
      == Some((cli, CliArgs(Some(plugin), Some(entity), Some(time), key, lines, lineno, cursorpos,
                            project, language, category, proxy, write, unsaved, verbose, extra)))
  {
    ReadAllParts(cli, plugin, entity, time, key, lines, lineno, cursorpos, project, language,
                 write, unsaved, category, verbose, proxy, extra);
  }

  /**
   * The reporter reads from the plugin's command line exactly the options intended for the
   * heartbeat: every field, the key only when it is non-empty, `--verbose` only when debugging
   * is on, the proxy whenever it is non-null, and the extra-heartbeats switch only when there
   * are extra heartbeats.
   */
  lemma CommandLineRead(h: Heartbeat, apiKey: string, hasExtras: bool, host: Host, pluginVersion: string, settings: Settings)
    requires Complete(h)
    ensures ParseArgv(CommandLine(h, apiKey, hasExtras, host, pluginVersion, settings))
      == Some((CliPath(host), Intended(h, apiKey, hasExtras, host, pluginVersion, settings)))
  {
    AssembleRead(CliPath(host), PluginString(host.appName, host.appVersion, pluginVersion),
                 h.entity.value, PlainString(h.timestamp.value),
                 if apiKey != "" then Some(apiKey) else None,
                 IntArg(h.lineCount), IntArg(h.lineNumber), IntArg(h.cursorPosition), h.project, h.language,
                 h.isWrite.value, h.isUnsavedFile.value, if h.isBuilding.value then Some("building") else None,
                 settings.debug == Some(true), settings.proxy, hasExtras);
  }

  /** `Integer.parseInt` of an optional numeric option: `None` when it does not fit an `Integer`. */
  function ReadInt32(v: Option<string>): Option<Option<Int32>> {
    match v
    case None => Some(None)
    case Some(t) =>
      match ParseInt(t)
      case None => None
      case Some(n) => if -TwoTo31 <= n < TwoTo31 then Some(Some(n)) else None
  }

  /** The heartbeat a reporter reconstructs from the options; `None` for a malformed option. */
  function DecodeHeartbeat(a: CliArgs): Option<Heartbeat> {
    if a.entity.None? || a.time.None? then None
    else
      match (ParsePlain(a.time.value), ReadInt32(a.lines), ReadInt32(a.lineno), ReadInt32(a.cursorpos))
      case (Some(t), Some(lc), Some(ln), Some(cp)) =>
        Some(Heartbeat(a.entity, lc, ln, cp, Some(t), Some(a.write), Some(a.unsaved), a.project, a.language,
                       Some(a.category == Some("building"))))
      case _ => None
  }

  lemma ReadIntArg(n: Option<Int32>)
    ensures ReadInt32(IntArg(n)) == Some(n)
  {
    if n.Some? {
      IntToStringRoundTrip(n.value);
    }
  }

  /** The intended options determine the heartbeat they were made from. */
  lemma IntendedDecodes(h: Heartbeat, apiKey: string, hasExtras: bool, host: Host, pluginVersion: string, settings: Settings)
    requires Complete(h)
    ensures DecodeHeartbeat(Intended(h, apiKey, hasExtras, host, pluginVersion, settings)) == Some(h)
  {
    PlainStringRoundTrip(h.timestamp.value);
    ReadIntArg(h.lineCount);
    ReadIntArg(h.lineNumber);
    ReadIntArg(h.cursorPosition);
  }

  /**
   * Nothing of a complete heartbeat is lost on the command line, and each run option is read
   * back as set: the key iff it is non-empty, verbose iff debugging is TRUE, the proxy whenever
   * it is non-null, the extras switch iff there are extra heartbeats.
   */
  lemma CommandLineCarries(h: Heartbeat, apiKey: string, hasExtras: bool, host: Host, pluginVersion: string, settings: Settings)
    requires Complete(h)
    ensures var read := ParseArgv(CommandLine(h, apiKey, hasExtras, host, pluginVersion, settings));
      read.Some? && read.value.0 == CliPath(host)
      && DecodeHeartbeat(read.value.1) == Some(h)
      && (read.value.1.key.Some? <==> apiKey != "")
      && (read.value.1.key.Some? ==> read.value.1.key.value == apiKey)
      && (read.value.1.verbose <==> settings.debug == Some(true))
      && read.value.1.proxy == settings.proxy
      && (read.value.1.extra <==> hasExtras)
      && read.value.1.plugin == Some(PluginString(host.appName, host.appVersion, pluginVersion))
  {
    CommandLineRead(h, apiKey, hasExtras, host, pluginVersion, settings);
    IntendedDecodes(h, apiKey, hasExtras, host, pluginVersion, settings);
  }
}
