# WakaTime plugin for Railroad: a verified model

This project models the core of the WakaTime plugin for the Railroad IDE in Dafny. It covers:

- how the plugin names the host platform (`osname()`, `isWindows()`, `architecture()`) and checks it against the reporter's published builds (`checkMissingPlatformSupport()`);
- where it keeps the `wakatime-cli` reporter and how it names it;
- the argument vector it builds for one reporter run (`buildCliCommand()`);
- the scheduled drain of the heartbeat queue (`runHeartbeatQueue()`);
- the heartbeats the editor-event listeners enqueue (`addEventListeners()`);
- the mutable `Heartbeat.Builder` and the immutable `Heartbeat`;
- the extraction of the reporter archive with its zip-slip guard (`FileUtil`), against a file system on which `createDirectories` and `isDirectory` behave as in the JDK;
- the early-return sequence of `onEnable()`.

Environment inputs are parameters: `os.name`, `os.arch`, `user.home`, `WAKATIME_HOME`, the application name and version, the two settings, the stored API key, the clock reading, the latest version, and whether the download, the process start, the stdin write and the archive deletion succeed.

The modules follow the program:

- `Platform`, `Location`, `Command`, `Dispatch`, `Events` and `Activation` model `WakatimePlugin.java`.
- `Heartbeats` models `Heartbeat.java`, and `ZipExtract` models `FileUtil.java`.
- `Queues` is the `ConcurrentLinkedQueue`, used by one thread at a time.
- `Paths` models the part of `java.nio.file.Path` the code relies on (Unix flavour).
- `Text` and `Numbers` model the string and number operations the code relies on.
- `Reporter` is an independent reading of the argument vector, the way the reporter takes it (a flag, then its value when it has one). The builder is proved against it.

The code's imperative parts stay imperative:

- `BuildCliCommand` appends to a sequence step by step.
- `RunHeartbeatQueue` polls a `HeartbeatQueue` object inside a `while` loop whose bound is the shrinking `Size()`.
- The builder and the file store are classes whose methods update their fields.
- `UnzipFile` and `OnEnable` are loops or early-return sequences.

Each of these methods is proved equal to a specification function (`CommandLine`, `ExtrasCount`/`Outcome`, `Unzip`, `Activate`), and the properties are proved about those functions.

The model keeps these behaviours of the code, some of which look unintended:

- The queue is only about half drained per cycle, not emptied.
- `--proxy` is passed whenever the proxy setting is non-null, so the registered default `""` is passed too.
- The reporter path ends in `.exe` on every system, although off Windows the file made executable has no `.exe` (see Findings).
- `isWindows()` is case-sensitive, so "WINDOWS 10" is refused.
- A failed deletion of the archive aborts activation before the listeners and the scheduler.
- The zip-slip guard is not a descendant check for a destination made only of ".." names (see Findings).
- The guard checks the normal form of an entry's path, but `createDirectories` and `isDirectory` get the raw one, so an entry such as "a/../f" fails when "a" is not a directory (see Findings).

## Model

| member | source | states |
|---|---|---|
| Platform.OsName | src/main/java/org/FrostyFlippper/WakatimePlugin.java:451-463 | "windows" iff `os.name` contains "Windows" (case-sensitively) or lower-cases to exactly "windows"; "darwin" iff not Windows and the lower-cased name contains "mac" or "darwin"; "linux" iff none of those and it contains "linux"; any other result is the lower-cased name |
| Platform.IsWindows | src/main/java/org/FrostyFlippper/WakatimePlugin.java:465-467 | true iff "Windows" occurs in `os.name` at some position, case-sensitively |
| Platform.Architecture | src/main/java/org/FrostyFlippper/WakatimePlugin.java:469-484 | "386" iff the raw name contains "386" or "32"; "arm64" iff not 32-bit and the name is exactly "aarch64", or the system is darwin and the name contains "arm"; "amd64" iff none of those and the name contains "64"; otherwise the raw name |
| Platform.CheckMissingPlatformSupport | src/main/java/org/FrostyFlippper/WakatimePlugin.java:421-449 | succeeds iff the canonical architecture is one the allow-list pairs with the canonical system; otherwise fails with "OS not supported!" |
| Platform.PlatformSupportedIff | src/main/java/org/FrostyFlippper/WakatimePlugin.java:425-447 | `os + "-" + arch` is one of the 19 listed combinations iff `arch` is in the per-system table |
| Platform.WindowsNameExample | src/main/java/org/FrostyFlippper/WakatimePlugin.java:451-453 | "Windows 11" resolves to windows |
| Platform.LinuxNameExample | src/main/java/org/FrostyFlippper/WakatimePlugin.java:455-460 | "Linux" resolves to linux |
| Platform.MacNameExample | src/main/java/org/FrostyFlippper/WakatimePlugin.java:455-457 | "Mac OS X" resolves to darwin |
| Platform.FreeBsdNameExample | src/main/java/org/FrostyFlippper/WakatimePlugin.java:455-462 | "FreeBSD" falls through to its lower-cased name |
| Platform.X8664Example | src/main/java/org/FrostyFlippper/WakatimePlugin.java:480-481 | "x86_64" resolves to amd64 |
| Platform.Aarch64Example | src/main/java/org/FrostyFlippper/WakatimePlugin.java:474-475 | "aarch64" resolves to arm64 |
| Platform.Aarch32Example | src/main/java/org/FrostyFlippper/WakatimePlugin.java:471-472 | "aarch32" resolves to 386, since the 32-bit test comes first |
| Platform.PassThroughExample | src/main/java/org/FrostyFlippper/WakatimePlugin.java:483 | "x86" and, off macOS, "arm" pass through unchanged |
| Platform.MacArmExample | src/main/java/org/FrostyFlippper/WakatimePlugin.java:477-478 | on macOS "arm" resolves to arm64 |
| Platform.WindowsIsCaseSensitive | src/main/java/org/FrostyFlippper/WakatimePlugin.java:465-467 | "WINDOWS 10" is not recognised as Windows and resolves to "windows 10" |
| Platform.UpperCaseWindowsRefused | src/main/java/org/FrostyFlippper/WakatimePlugin.java:447-448 | that upper-case Windows name is refused as unsupported |
| Platform.UnsupportedExamples | src/main/java/org/FrostyFlippper/WakatimePlugin.java:425-447 | solaris-sparc and windows-arm are not in the list |
| Platform.WindowsArmRefused | src/main/java/org/FrostyFlippper/WakatimePlugin.java:447-448 | Windows on "arm" is refused |
| Platform.LinuxAmd64Accepted | src/main/java/org/FrostyFlippper/WakatimePlugin.java:447 | Linux on x86_64 is accepted |
| Platform.MacArm64Accepted | src/main/java/org/FrostyFlippper/WakatimePlugin.java:447 | macOS on aarch64 is accepted |
| Text.ContainsIff | src/main/java/org/FrostyFlippper/WakatimePlugin.java:456-459 | `String.contains` holds iff the substring occurs at some position |
| Text.ToLower | src/main/java/org/FrostyFlippper/WakatimePlugin.java:455 | lower-casing keeps the length, maps each character through the ASCII lower-case map, and leaves no upper-case letter |
| Text.ToLowerIdempotent | src/main/java/org/FrostyFlippper/WakatimePlugin.java:455 | a string without upper-case letters is its own lower case, so lower-casing twice is lower-casing once |
| Location.WakatimeLocation | src/main/java/org/FrostyFlippper/WakatimePlugin.java:355-360 | a null or blank `WAKATIME_HOME` gives `.wakatime` appended to the parsed `user.home`; otherwise the parsed `WAKATIME_HOME` |
| Location.FallbackUnderUserHome | src/main/java/org/FrostyFlippper/WakatimePlugin.java:357-358 | the fallback home starts with the user home and has exactly one more name, `.wakatime` |
| Location.BlankHomeIgnored | src/main/java/org/FrostyFlippper/WakatimePlugin.java:357 | a `WAKATIME_HOME` of one space is ignored: `/home/u` gives `/home/u/.wakatime` |
| Location.CliFileName | src/main/java/org/FrostyFlippper/WakatimePlugin.java:363 | the file name starts with "wakatime-cli-" and ends with ".exe" on every system; it has a '/' iff the system or architecture name has one |
| Location.CliFileInLocation | src/main/java/org/FrostyFlippper/WakatimePlugin.java:363-364 | a slash-free reporter file name resolves to a direct child of the home, whose rendering ends with ".exe" |
| Location.WakatimeCliLocation | src/main/java/org/FrostyFlippper/WakatimePlugin.java:362-367 | the reporter path is the home plus one name, `wakatime-cli-{os}-{arch}.exe`, when the names carry no '/' |
| Location.PluginString | src/main/java/org/FrostyFlippper/WakatimePlugin.java:369-371 | the string starts with `{app}/` and ends with `-wakatime/{pluginVersion}` |
| Location.PluginStringRoundTrip | src/main/java/org/FrostyFlippper/WakatimePlugin.java:369-371 | splitting the string at its first space and first '/' gives back the application, its version and the plugin version |
| Numbers.IntToStringRoundTrip | src/main/java/org/FrostyFlippper/WakatimePlugin.java:299-312 | the decimal rendering of a line count, line number or cursor position reads back as the same integer |
| Numbers.ToInt32 | src/main/java/org/FrostyFlippper/WakatimePlugin.java:180 | the `(int)` cast of a count lands in the 32-bit range and agrees with it modulo 2^32 |
| Numbers.ToInt32Identity | src/main/java/org/FrostyFlippper/WakatimePlugin.java:180 | a count that fits in 32 bits is kept unchanged by the cast |
| Numbers.TimestampText | src/main/java/org/FrostyFlippper/WakatimePlugin.java:230-292 | the `--time` text of a clock reading is its whole seconds, a point, and the milliseconds as four digits ending in 0 |
| Numbers.PlainString | src/main/java/org/FrostyFlippper/WakatimePlugin.java:292 | `toPlainString()` of a scale-4 value ends with a point and four digits |
| Numbers.PlainStringRoundTrip | src/main/java/org/FrostyFlippper/WakatimePlugin.java:292 | the `--time` text parses back to the same timestamp |
| Numbers.PlainStringExample | src/main/java/org/FrostyFlippper/WakatimePlugin.java:230-232 | a clock reading of 100000 ms renders as "100.0000" |
| Numbers.NegativePlainStringExample | src/main/java/org/FrostyFlippper/WakatimePlugin.java:292 | -0.0005 renders with its sign and leading zero, "-0.0005" |
| Paths.ParseRender | src/main/java/org/FrostyFlippper/FileUtil.java:50 | `Path.of(p.toString())` is `p` |
| Paths.OfTwoRender | src/main/java/org/FrostyFlippper/FileUtil.java:50 | `Path.of(dest.toString(), name)` is `dest` followed by the names of `name` |
| Paths.NormNamesIsNormal | src/main/java/org/FrostyFlippper/FileUtil.java:52 | the result of `normalize()` has no "." and has ".." only as a leading run of a relative path |
| Paths.NormalizeIdempotent | src/main/java/org/FrostyFlippper/FileUtil.java:52 | normalising twice is normalising once |
| Paths.NormAppend | src/main/java/org/FrostyFlippper/FileUtil.java:50-52 | normalising a normal directory followed by names without ".." keeps the directory as prefix and adds no ".." |
| Heartbeats.Builder.constructor | src/main/java/org/FrostyFlippper/Heartbeat.java:71-80 | a fresh builder has all ten fields null |
| Heartbeats.Builder.SetEntity | src/main/java/org/FrostyFlippper/Heartbeat.java:82-85 | assigns the entity only and returns the same builder |
| Heartbeats.Builder.SetLineCount | src/main/java/org/FrostyFlippper/Heartbeat.java:87-90 | assigns the line count only and returns the same builder |
| Heartbeats.Builder.SetLineNumber | src/main/java/org/FrostyFlippper/Heartbeat.java:92-95 | assigns the line number only and returns the same builder |
| Heartbeats.Builder.SetCursorPosition | src/main/java/org/FrostyFlippper/Heartbeat.java:97-100 | assigns the cursor position only and returns the same builder |
| Heartbeats.Builder.SetTimestamp | src/main/java/org/FrostyFlippper/Heartbeat.java:102-105 | assigns the timestamp only and returns the same builder |
| Heartbeats.Builder.SetWrite | src/main/java/org/FrostyFlippper/Heartbeat.java:107-110 | assigns the write flag only and returns the same builder |
| Heartbeats.Builder.SetUnsavedFile | src/main/java/org/FrostyFlippper/Heartbeat.java:112-115 | assigns the unsaved flag only and returns the same builder |
| Heartbeats.Builder.SetProject | src/main/java/org/FrostyFlippper/Heartbeat.java:117-120 | assigns the project only and returns the same builder |
| Heartbeats.Builder.SetLanguage | src/main/java/org/FrostyFlippper/Heartbeat.java:122-125 | assigns the language only and returns the same builder |
| Heartbeats.Builder.SetBuilding | src/main/java/org/FrostyFlippper/Heartbeat.java:127-130 | assigns the building flag only and returns the same builder |
| Heartbeats.Builder.Build | src/main/java/org/FrostyFlippper/Heartbeat.java:57-68 | each of the ten getters of the result returns the builder's field at the time of the call |
| Heartbeats.BuildUnset | src/main/java/org/FrostyFlippper/Heartbeat.java:132-134 | `build()` on a fresh builder succeeds with no entity and no timestamp |
| Heartbeats.SetTwice | src/main/java/org/FrostyFlippper/Heartbeat.java:117-120 | of two calls of one setter the second value wins and the other nine fields are untouched |
| Heartbeats.BuildThenChange | src/main/java/org/FrostyFlippper/Heartbeat.java:5-68 | changing the builder after `build()` leaves the built heartbeat as it was |
| Queues.HeartbeatQueue.constructor | src/main/java/org/FrostyFlippper/WakatimePlugin.java:141 | a new queue is empty |
| Queues.HeartbeatQueue.Add | src/main/java/org/FrostyFlippper/WakatimePlugin.java:178 | `add` appends at the tail |
| Queues.HeartbeatQueue.Poll | src/main/java/org/FrostyFlippper/WakatimePlugin.java:237 | `poll` removes and returns the head, or returns null and changes nothing on an empty queue |
| Events.LineCount | src/main/java/org/FrostyFlippper/WakatimePlugin.java:180 | the count is at most the length, and 0 exactly for the empty string |
| Events.LineCountBreaks | src/main/java/org/FrostyFlippper/WakatimePlugin.java:180 | `lines().count()` equals the number of line breaks ("\r\n" counting once) plus one for a last line without terminator |
| Events.LineThenRest | src/main/java/org/FrostyFlippper/WakatimePlugin.java:180 | a terminator-free line, a terminator ("\n", "\r" or "\r\n") and the rest count one line more than the rest |
| Events.TrailingTerminator | src/main/java/org/FrostyFlippper/WakatimePlugin.java:180 | a trailing terminator adds no line |
| Events.LineCountExamples | src/main/java/org/FrostyFlippper/WakatimePlugin.java:180 | "" has 0 lines; "a\nb", "a\r\nb\r\n" and "\n\n" have 2 |
| Events.FileHeartbeat | src/main/java/org/FrostyFlippper/WakatimePlugin.java:178-191 | the listeners' heartbeat: entity = the path, line count = the count narrowed to `int` (equal to it when it fits), timestamp = now, write true, building false, the given unsaved flag, the other four null |
| Events.EventHeartbeat | src/main/java/org/FrostyFlippper/WakatimePlugin.java:173-227 | a file event neither activated nor saved adds nothing; activation wins over saving and is reported as not unsaved, a save as unsaved, a modification as not unsaved |
| Events.NewHeartbeat | src/main/java/org/FrostyFlippper/WakatimePlugin.java:178-191 | the builder chain yields exactly that heartbeat |
| Events.OnFileEvent | src/main/java/org/FrostyFlippper/WakatimePlugin.java:173-209 | the queue grows by the event's heartbeat, or is unchanged when the event adds none |
| Events.OnFileModified | src/main/java/org/FrostyFlippper/WakatimePlugin.java:211-227 | the queue grows by the modification's heartbeat |
| Command.FirstFault | src/main/java/org/FrostyFlippper/WakatimePlugin.java:289-335 | no exception iff the heartbeat has entity, timestamp and the three flags and the key is non-null; each possible exception (timestamp, key, write, unsaved, building, entity) is the result iff every check before it passes and its own fails |
| Command.CommandLine | src/main/java/org/FrostyFlippper/WakatimePlugin.java:282-292 | the command line of a complete heartbeat starts with the reporter path, `--plugin` and its string, `--entity` and the entity, `--time` and the rendered timestamp |
| Command.AssemblePrefix | src/main/java/org/FrostyFlippper/WakatimePlugin.java:282-292 | every vector starts with the reporter path, `--plugin` and its string, `--entity` and the entity, `--time` and the time |
| Command.AssembleSuffix | src/main/java/org/FrostyFlippper/WakatimePlugin.java:341-350 | `--extra-heartbeats` is last when there are extras; a non-null proxy, the empty string included, gives `--proxy` and its value just before that |
| Command.ProxyValueMimicsExtras | src/main/java/org/FrostyFlippper/WakatimePlugin.java:341-350 | a proxy setting reading "--extra-heartbeats" ends the vector with that string without extras, so the last element alone does not tell extras apart |
| Command.BuildCliCommand | src/main/java/org/FrostyFlippper/WakatimePlugin.java:280-353 | the step-by-step builder ends in the first NullPointerException, or in the command line of the heartbeat with the extras switch iff the extras are non-empty |
| Reporter.AssembleRead | src/main/java/org/FrostyFlippper/WakatimePlugin.java:280-353 | reading an assembled vector flag by flag gives back the executable and every part, whatever strings they are |
| Reporter.CommandLineRead | src/main/java/org/FrostyFlippper/WakatimePlugin.java:280-353 | the command line of a complete heartbeat is read as exactly the intended options |
| Reporter.ReadIntArg | src/main/java/org/FrostyFlippper/WakatimePlugin.java:299-312 | a rendered `Integer` option reads back as the same 32-bit value |
| Reporter.IntendedDecodes | src/main/java/org/FrostyFlippper/WakatimePlugin.java:289-335 | the intended options determine the heartbeat they were made from |
| Reporter.CommandLineCarries | src/main/java/org/FrostyFlippper/WakatimePlugin.java:280-353 | from the command line the reporter recovers the heartbeat and the plugin string; it reads the key iff the key is non-empty, verbose iff debug is TRUE, the proxy whenever it is non-null, the extras switch iff there are extras |
| Dispatch.LoopTakenHalf | src/main/java/org/FrostyFlippper/WakatimePlugin.java:242-248 | the loop, with its counter against the shrinking size, takes the first ceil((n-i)/2) of the n heartbeats left |
| Dispatch.ExtrasCount | src/main/java/org/FrostyFlippper/WakatimePlugin.java:242-248 | a queue of m >= 1 gives ceil((m-1)/2) extras and leaves floor((m-1)/2) |
| Dispatch.Outcome | src/main/java/org/FrostyFlippper/WakatimePlugin.java:252-277 | a missing field or key crashes the cycle; otherwise a failed start gives the command only, and a started process receives the extras as one JSON array and a newline |
| Dispatch.RunHeartbeatQueue | src/main/java/org/FrostyFlippper/WakatimePlugin.java:234-278 | an empty queue is left alone; otherwise the head is the primary, the next ceil((m-1)/2) are the extras in order, the last floor((m-1)/2) stay queued, and the cycle is the outcome for them whatever the spawn and write do |
| Dispatch.Report | src/main/java/org/FrostyFlippper/WakatimePlugin.java:252-277 | the drained heartbeats' part of a cycle ends as the outcome says: the command is built or the cycle crashes, then the process is started and sent the extras |
| Dispatch.DrainFollowsLoop | src/main/java/org/FrostyFlippper/WakatimePlugin.java:237-248 | the closed form of the drain is what the loop takes round by round |
| Dispatch.DrainPartitions | src/main/java/org/FrostyFlippper/WakatimePlugin.java:237-248 | primary, extras and the rest put back together are the queue, in order |
| Dispatch.SmallQueues | src/main/java/org/FrostyFlippper/WakatimePlugin.java:242-248 | queues of 1, 2, 3 and 4 heartbeats give 0, 1, 1 and 2 extras |
| Dispatch.EventPrimaryFaults | src/main/java/org/FrostyFlippper/WakatimePlugin.java:235-252 | a heartbeat from an editor event has every needed field, so a cycle with it crashes only without a stored key |
| Dispatch.Remaining | src/main/java/org/FrostyFlippper/WakatimePlugin.java:242-248 | without new events, each cycle on a non-empty queue leaves fewer heartbeats |
| Dispatch.RemainingHalves | src/main/java/org/FrostyFlippper/WakatimePlugin.java:242-248 | after c cycles without new events at most m / 2^c heartbeats are left |
| ZipExtract.ResolveAsWritten | src/main/java/org/FrostyFlippper/FileUtil.java:49-56 | fails only with "Bad zip entry" for the name; under a well-based destination (absolute, empty, or not all "..") what it accepts normalises inside the destination |
| ZipExtract.ResolveZipEntryPath | src/main/java/org/FrostyFlippper/FileUtil.java:49-56 | the intended guard: fails only with "Bad zip entry"; what it returns is normal and inside the destination, is accepted by the guard as written, and is the normal form of what that guard returns |
| ZipExtract.GuardsAgree | src/main/java/org/FrostyFlippper/FileUtil.java:49-56 | for a well-based destination the two guards accept the same names, and the intended one returns the normal form of what the written one returns |
| ZipExtract.StartsWithInside | src/main/java/org/FrostyFlippper/FileUtil.java:52 | a normal path starting with a well-based destination never goes up from it |
| ZipExtract.ResolvedInside | src/main/java/org/FrostyFlippper/FileUtil.java:49-56 | what a guard accepts normalises inside the destination, when the guard is the intended one or the destination is well-based |
| ZipExtract.DotDotDestinationEscapes | src/main/java/org/FrostyFlippper/FileUtil.java:49-56 | as written, destination ".." accepts "../evil" as "../../evil", which is normal and not inside ".."; the intended guard refuses it |
| ZipExtract.PlainNameAccepted | src/main/java/org/FrostyFlippper/FileUtil.java:49-56 | under a normal non-empty destination a name without ".." passes both guards; the guard as written returns the destination followed by the entry's names, un-normalised |
| ZipExtract.DotDotEvilRejected | src/main/java/org/FrostyFlippper/FileUtil.java:50-53 | both guards refuse "../../evil" under every normal destination that ends in a name other than "..", except "/evil" |
| ZipExtract.ClimbNormalForm | src/main/java/org/FrostyFlippper/FileUtil.java:52 | after a normal name sequence and a real name `x`, "../../evil" cancels `x`, takes one normalisation step up, and appends "evil" |
| ZipExtract.EvilDestinationAcceptsClimb | src/main/java/org/FrostyFlippper/FileUtil.java:50-55 | under "/evil" the name "../../evil" is accepted and lands on "/evil" itself |
| ZipExtract.RootAcceptsClimb | src/main/java/org/FrostyFlippper/FileUtil.java:50-55 | under "/" the name "../../evil" is accepted and normalises to "/evil" |
| ZipExtract.EmptyDestinationRejects | src/main/java/org/FrostyFlippper/FileUtil.java:52 | the empty destination refuses a plain name, since only the empty path starts with it |
| ZipExtract.ParentResolve | src/main/java/org/FrostyFlippper/FileUtil.java:28 | `getParent()` of a path with a parent is shorter, and resolving the last name against it gives the path back |
| ZipExtract.CreatedFrom | src/main/java/org/FrostyFlippper/FileUtil.java:24-29 | the walk down a path's prefixes from the k-th: it fails, with NotADirectory, iff something other than a directory stands at one of them; everything already there is kept, and each path it adds is a directory at one of those prefixes |
| ZipExtract.AnchorFrom | src/main/java/org/FrostyFlippper/FileUtil.java:24-29 | where `createDirectories` starts when the path cannot be made at once: no start iff something other than a directory is met among the raw prefixes before a missing one; otherwise a prefix whose predecessors down from the k-th are directories |
| ZipExtract.AnchorNextMissing | src/main/java/org/FrostyFlippper/FileUtil.java:24-29 | where the search stops before the last name, the next raw prefix is neither in the file system nor a directory that always exists |
| ZipExtract.DirectoriesCreated | src/main/java/org/FrostyFlippper/FileUtil.java:24-29 | `createDirectories` of a raw path: everything already there is kept, each path added is a directory at a prefix of the path's normal form, and on success the normal form is a directory; it fails only with NotADirectory, and only when something other than a directory stands at a raw prefix of the path or at a prefix of its normal form |
| ZipExtract.WalkedDownMakes | src/main/java/org/FrostyFlippper/FileUtil.java:24-29 | from where the search stops, a walk down that is not stopped leaves the path's normal form a directory |
| ZipExtract.NormalCreated | src/main/java/org/FrostyFlippper/FileUtil.java:24-29 | for a normal path, `createDirectories` is the walk of its prefixes from the root down |
| ZipExtract.WalkLeavesDirectories | src/main/java/org/FrostyFlippper/FileUtil.java:24-31 | a walk that is not stopped leaves every walked prefix a directory |
| ZipExtract.WalkThroughDirectories | src/main/java/org/FrostyFlippper/FileUtil.java:24-29 | a walk over directories only adds nothing and succeeds |
| ZipExtract.DirectoryMade | src/main/java/org/FrostyFlippper/FileUtil.java:24-31 | `createDirectories` then `isDirectory`: only directories at prefixes of the normal form are added, and on success every raw prefix of the path is a directory; it fails with NotADirectory only when something other than a directory blocks the path, and with NotCreated only when `createDirectories` succeeded but a raw prefix is still not a directory |
| ZipExtract.DirectoryCheckPasses | src/main/java/org/FrostyFlippper/FileUtil.java:25-31 | for a normal path, such as every path the intended guard returns, the `isDirectory` check after `createDirectories` never fails |
| ZipExtract.ExistingDirectoryMade | src/main/java/org/FrostyFlippper/FileUtil.java:24-31 | making a normal path that is a directory all the way down succeeds and changes nothing |
| ZipExtract.FileCopied | src/main/java/org/FrostyFlippper/FileUtil.java:33 | for a target whose parent is a directory, as every target `Extract` hands it has, `Files.copy` with `REPLACE_EXISTING` fails iff the target's last raw name is "." or ".." (NotAFile), or its normal form is made only of ".." names or is a non-empty directory (DirectoryNotEmpty); otherwise only the normal form changes, to a file holding exactly the bytes |
| ZipExtract.CopyReplaces | src/main/java/org/FrostyFlippper/FileUtil.java:33 | with `REPLACE_EXISTING` a second copy to the same path succeeds and leaves the file system as if only the second copy had been made |
| ZipExtract.FileExtracted | src/main/java/org/FrostyFlippper/FileUtil.java:28-33 | a file entry removes no path, and on success its normalised path holds the entry's bytes |
| ZipExtract.Extract | src/main/java/org/FrostyFlippper/FileUtil.java:22-34 | one entry removes no path; it succeeds only when the guard accepts it, and then a directory entry's path is a directory on disk and a file entry's normalised path holds its bytes |
| ZipExtract.Unzip | src/main/java/org/FrostyFlippper/FileUtil.java:20-36 | an extraction removes no path |
| ZipExtract.FileStore.CreateDirectories | src/main/java/org/FrostyFlippper/FileUtil.java:24-26 | the store changes as `createDirectories` and the check say (`DirectoryMade`), and the failure is theirs, with the same conditions for each failure |
| ZipExtract.FileStore.Copy | src/main/java/org/FrostyFlippper/FileUtil.java:33 | the store changes as `Files.copy` says, or not at all on failure |
| ZipExtract.UnzipFile | src/main/java/org/FrostyFlippper/FileUtil.java:18-39 | the `while` loop, with the guard as written, leaves the store and the failure of the entry-by-entry extraction |
| ZipExtract.UnzipConcat | src/main/java/org/FrostyFlippper/FileUtil.java:20-36 | entries are extracted in archive order: a longer archive continues from its front part unless that failed, under either guard |
| ZipExtract.RejectedEntryStops | src/main/java/org/FrostyFlippper/FileUtil.java:20-36 | a rejected entry stops the run with "Bad zip entry"; the entries before it stay written and none after it is |
| ZipExtract.UnzipContained | src/main/java/org/FrostyFlippper/FileUtil.java:20-36 | under a sound guard (the intended one, or the one as written with a well-based destination) a whole extraction removes no path, turns no existing path into a directory, writes nothing off the destination's line (its ancestors and descendants) and every file inside the destination, whatever the archive holds |
| ZipExtract.ExtractContained | src/main/java/org/FrostyFlippper/FileUtil.java:22-34 | the same for one entry |
| ZipExtract.FileEntryContained | src/main/java/org/FrostyFlippper/FileUtil.java:27-33 | a file path that normalises inside the destination: its parents and the file itself are written on the destination's line |
| ZipExtract.NormalWalkOnLine | src/main/java/org/FrostyFlippper/FileUtil.java:24-29 | `createDirectories` of a normal path on the destination's line writes only on that line |
| ZipExtract.ParentOnLine | src/main/java/org/FrostyFlippper/FileUtil.java:28 | the normal form of the parent of a path that normalises inside the destination is on the destination's line |
| ZipExtract.MadeOnLine | src/main/java/org/FrostyFlippper/FileUtil.java:24-29 | making a directory whose normal form is on the destination's line writes only on that line, whatever ".." names the raw path holds |
| ZipExtract.UpwardMade | src/main/java/org/FrostyFlippper/FileUtil.java:24-31 | making a relative path of ".." names changes nothing and succeeds |
| ZipExtract.AsWrittenWritesOutside | src/main/java/org/FrostyFlippper/FileUtil.java:20-56 | as written, under destination "..", the entry "../evil" is extracted as the file "../../evil" in every file system where that file does not yet exist |
| ZipExtract.IntendedRefusesEscape | src/main/java/org/FrostyFlippper/FileUtil.java:20-56 | the intended guard stops the same archive with "Bad zip entry" and writes nothing |
| ZipExtract.DotDotEntryStep | src/main/java/org/FrostyFlippper/FileUtil.java:22-29 | under "/x" the guard as written accepts "a/../f", and the entry makes the raw parent "/x/a/.." and copies there |
| ZipExtract.DotDotResolved | src/main/java/org/FrostyFlippper/FileUtil.java:49-56 | under "/x" the guard as written returns "a/../f" as the raw path "/x/a/../f", and the intended guard returns its normal form "/x/f" |
| ZipExtract.FileBeforeDotDotStops | src/main/java/org/FrostyFlippper/FileUtil.java:27-29 | where "/x/a" is a regular file, making "/x/a/.." fails with NotADirectory and writes nothing, although its normal form "/x" is a directory |
| ZipExtract.DotDotThroughMissing | src/main/java/org/FrostyFlippper/FileUtil.java:27-31 | where "/x" is a directory and "/x/a" does not exist, the entry "a/../f" passes the guard as written but stops with "Failed to create directory" for "/x/a/..", writing nothing |
| ZipExtract.IntendedDotDotWrites | src/main/java/org/FrostyFlippper/FileUtil.java:22-33 | with the intended guard the same entry writes the file "/x/f" and nothing else, whether or not "a" exists |
| ZipExtract.DotEntryRefused | src/main/java/org/FrostyFlippper/FileUtil.java:22-33 | under a directory "/x" the entry "." passes the guard as written as "/x/.", but the copy fails with NotAFile and nothing is written: the destination is not turned into a file |
| ZipExtract.UpwardEntryRefused | src/main/java/org/FrostyFlippper/FileUtil.java:22-33 | under ".." the entry ".." passes the guard as written as "../..", but the copy fails with NotAFile and nothing is written |
| Activation.Activate | src/main/java/org/FrostyFlippper/WakatimePlugin.java:101-146 | the file system after activation is that of the extraction with the guard as written when the platform is supported, a version is found and the download succeeds, and is unchanged otherwise; a changed file system means the download step was done; an extraction failure ending carries the extraction's failure |
| Activation.DefaultHomeContained | src/main/java/org/FrostyFlippper/WakatimePlugin.java:100-133 | with the default home (no or a blank `WAKATIME_HOME`), activation removes no path, turns no existing path into a directory, writes only on the home's line of descent, and writes files only inside the home |
| Activation.OnEnable | src/main/java/org/FrostyFlippper/WakatimePlugin.java:101-146 | the early-return sequence ends exactly as the activation function says, with the same steps and file system |
| Activation.StepsPrefix | src/main/java/org/FrostyFlippper/WakatimePlugin.java:104-146 | whatever the outcomes, the steps done are a prefix of all steps in order |
| Activation.StepsInOrder | src/main/java/org/FrostyFlippper/WakatimePlugin.java:104-146 | the steps `onEnable()` completes are a prefix of platform check, version, download, extraction, deletion, chmod (off Windows), listeners, scheduler |
| Activation.UnsupportedStopsFirst | src/main/java/org/FrostyFlippper/WakatimePlugin.java:104-109 | an unsupported platform returns before any other step and changes no file |
| Activation.NoVersionStopsBeforeDownload | src/main/java/org/FrostyFlippper/WakatimePlugin.java:111-115 | a null version returns before the download and changes no file |
| Activation.ArmedIffAllSucceeded | src/main/java/org/FrostyFlippper/WakatimePlugin.java:104-146 | the scheduler step occurs iff the run ends armed, iff every step succeeded; listeners and scheduler are then the last two steps |
| Activation.ScheduledIffAllSucceeded | src/main/java/org/FrostyFlippper/WakatimePlugin.java:104-146 | `onEnable()` arms the scheduler iff the platform is supported, a version is found, the download and the extraction succeed and the archive is deleted |
| Activation.FailureStopsListeners | src/main/java/org/FrostyFlippper/WakatimePlugin.java:128-135 | an extraction or deletion failure returns before the listeners and the scheduler, keeping what was extracted |
| Activation.ExtractionFailureStopsListeners | src/main/java/org/FrostyFlippper/WakatimePlugin.java:128-135 | the same for `onEnable()` itself |
| Activation.MarkedFileIsNotCli | src/main/java/org/FrostyFlippper/WakatimePlugin.java:137-139 | off Windows the file made executable is the reporter's name without ".exe", so the command line runs a different file |
| Activation.IntendedCliLocation | src/main/java/org/FrostyFlippper/WakatimePlugin.java:137-139 | the corrected reporter location, with ".exe" on Windows only: on Windows it is the location the code computes, and elsewhere it is exactly the file made executable, which the code's location is not |

## Left out

- The network: `getLatestWakatimeVersion()` and `downloadWakatimeCLI()` become a given `Option` version and a download success flag. A failed download returns `null`, which makes `unzipFile(null, …)` throw a `NullPointerException` (`DownloadCrashed`). The download's own `createDirectories` and file write are not modelled.
- Gson: the standard input of the reporter is modelled as the ordered extras followed by a newline, not as JSON text.
- The subprocess: starting it and writing its standard input are success flags.
- Concurrency: the queue is used by one thread at a time; no interleaving of producers and the drain is modelled. For that reason the `heartbeat == null` break inside the drain loop is not modelled, since it cannot happen sequentially.
- The scheduler's timing (every 30 seconds) is not modelled. Neither is the fact that a task which throws is not run again.
- `getCurrentTimestamp()`'s double division and `HALF_UP` rounding: the timestamp is the clock reading in milliseconds times 10, in units of 1/10000 s.
- Heartbeats.Heartbeat: the timestamp is a `Decimal4`, a decimal with exactly four fractional digits, whereas `Heartbeat.java:10` holds any `BigDecimal`. Only the scale-4 values `getCurrentTimestamp()` produces are modelled; other scales and their `toPlainString()` forms are not.
- The host API: settings registration, `onDisable()`, the token store, the event bus and logging. The settings and the token are parameters.
- `ToLower`: ASCII letters only, whereas Java's `toLowerCase()` is locale- and Unicode-aware.
- Path strings: a NUL character, which makes Java throw `InvalidPathException`, is not modelled. Neither is a `null` `user.home`.
- ZipExtract.FileCopied: a copy whose target's parent is missing or is a file, which Java refuses, is not modelled as a failure; the extraction only copies after making the parent a directory.
- The file system is a map from normalised paths to nodes. Symbolic links, permissions and disk errors are not modelled. `Files.copy` refuses a target whose last name is "." or "..", or whose normal form is made only of ".." names, as the JDK does on Unix; the exact exception class is not modelled.
- `setExecutable()` changes no modelled state; the model only records which file it targets. The deletion of the archive is a success flag and removes nothing from the map.
- The `isDirectory` check after each `createDirectories` is modelled. It fails when a raw prefix of the path is not a directory (`ZipExtract.DotDotThroughMissing`), and never for a normal path (`ZipExtract.DirectoryCheckPasses`). Races with another process and I/O errors are not modelled.
- `createDirectories` follows the JDK's algorithm: when the path cannot be made at once, the nearest existing ancestor is searched for, then `relativize` leads from it to the normal form of the path, whose missing prefixes are created in order. The search is modelled going forward from the root, to the first missing prefix. On a file system that holds no path whose parent is missing, the two agree; the model neither states that property of the file system nor proves that the extraction preserves it. Which `IOException` Java throws, and which path its message names, is not modelled.
- Command.CommandLine: its contract states the prefix of the vector. The facts about its end, the proxy and the extras switch, are proved about `Assemble` for any parts (`AssembleSuffix`), and `Reporter.CommandLineCarries` states them for the command line through the reader.
- ZipExtract.Unzip takes the guard as a parameter. `UnzipFile` and `onEnable()` run it with the guard as written (`AsWritten`), as the code does. The intended guard (`Intended`) is the corrected one of the Findings. The containment lemma `UnzipContained` is proved for both: for the intended guard with any destination, and for the guard as written with a well-based one.
- ZipExtract.Unzip: its own contract says only that no path is removed. What it writes is stated by `UnzipContained`, `UnzipConcat` and `RejectedEntryStops`.

## Findings

| source | as written | input that shows it | evidently intended | confidence | as-written member | corrected member |
|---|---|---|---|---|---|---|
| src/main/java/org/FrostyFlippper/FileUtil.java:49-56 | an entry is accepted when `destFile.normalize().startsWith(destinationDir)` | destination `..`, entry `../evil`: the joined path normalises to `../../evil`, which starts with `..` but is its parent | accept only paths that normalise into the destination, never going up from it | not executed | ZipExtract.AsWrittenWritesOutside (with ZipExtract.DotDotDestinationEscapes) | ZipExtract.ResolveZipEntryPath (proved by ZipExtract.IntendedRefusesEscape and ZipExtract.UnzipContained) |
| src/main/java/org/FrostyFlippper/FileUtil.java:22-31 | the path that passes the guard is handed to `createDirectories` and `isDirectory` as joined, not normalised | destination `/x` (a directory), entry `a/../f`, no `/x/a`: it normalises to `/x/f` and passes the guard, but the `isDirectory` check on its parent `/x/a/..` fails, so the extraction stops | make and check only the normalised path, which lies inside the destination | not executed | ZipExtract.DotDotThroughMissing | ZipExtract.ResolveZipEntryPath, which hands on the normal form (proved by ZipExtract.IntendedDotDotWrites and ZipExtract.DirectoryCheckPasses) |
| src/main/java/org/FrostyFlippper/WakatimePlugin.java:362-364 | the reporter's file name is `wakatime-cli-{os}-{arch}.exe` on every system, while `onEnable()` marks `wakatime-cli-{os}-{arch}` executable off Windows | `os.name` "Linux", `os.arch` "amd64": the command line runs `<home>/wakatime-cli-linux-amd64.exe`, but the file made executable is `<home>/wakatime-cli-linux-amd64` | add ".exe" on Windows only, so that the file run is the file made executable | medium, not executed | Activation.MarkedFileIsNotCli | Activation.IntendedCliLocation |
