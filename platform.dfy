/**
 * Platform resolution of WakatimePlugin: the canonical operating-system and architecture
 * names of the reporter's release archives, and the allowlist of published combinations.
 * The JVM properties `os.name` and `os.arch` are parameters.
 */
module Platform {
  import opened Wrappers
  import opened Text

  /** `isWindows()`: a case-sensitive search for "Windows" in `os.name`. */
  function IsWindows(osNameProp: string): (r: bool)
    ensures r <==> exists k :: OccursAt(osNameProp, "Windows", k)
  {
    ContainsIff(osNameProp, "Windows");
    Contains(osNameProp, "Windows")
  }

  /**
   * `osname()`: "windows" when `isWindows()`, otherwise decided on the lower-cased name,
   * "mac" or "darwin" before "linux"; any other name is returned lower-cased.
   */
  function OsName(osNameProp: string): (r: string)
    ensures IsWindows(osNameProp) ==> r == "windows"
    ensures r == "windows" <==> IsWindows(osNameProp) || ToLower(osNameProp) == "windows"
    ensures r == "darwin" <==>
      !IsWindows(osNameProp) && (Contains(ToLower(osNameProp), "mac") || Contains(ToLower(osNameProp), "darwin"))
    ensures r == "linux" <==>
      !IsWindows(osNameProp) && !Contains(ToLower(osNameProp), "mac") && !Contains(ToLower(osNameProp), "darwin")
      && Contains(ToLower(osNameProp), "linux")
    ensures r != "windows" && r != "darwin" && r != "linux" ==> r == ToLower(osNameProp)
  {
    if IsWindows(osNameProp) then "windows"
    else
      var os := ToLower(osNameProp);
      assert !Contains("windows", "mac") && !Contains("windows", "darwin");
      assert Contains("darwin", "darwin") && Contains("linux", "linux");
      if Contains(os, "mac") || Contains(os, "darwin") then "darwin"
      else if Contains(os, "linux") then "linux"
      else os
  }

  /** `arch` names a 32-bit x86 machine in the eyes of `architecture()`. */
  predicate Is32Bit(arch: string) {
    Contains(arch, "386") || Contains(arch, "32")
  }

  /** `architecture()`: depends on `os.name` too, for Apple silicon. */
  function Architecture(osNameProp: string, arch: string): (r: string)
    ensures r == "386" <==> Is32Bit(arch)
    ensures r == "arm64" <==>
      !Is32Bit(arch) && (arch == "aarch64" || (OsName(osNameProp) == "darwin" && Contains(arch, "arm")))
    ensures r == "amd64" <==>
      !Is32Bit(arch) && arch != "aarch64" && !(OsName(osNameProp) == "darwin" && Contains(arch, "arm"))
      && Contains(arch, "64")
    ensures r != "386" && r != "arm64" && r != "amd64" ==> r == arch
  {
    if Is32Bit(arch) then "386"
    else if arch == "aarch64" then "arm64"
    else if OsName(osNameProp) == "darwin" && Contains(arch, "arm") then "arm64"
    else if Contains(arch, "64") then "amd64"
    else arch
  }

  /** The `validCombinations` array of `checkMissingPlatformSupport()`. */
  const ValidCombinations: seq<string> := [
    "darwin-amd64",
    "darwin-arm64",
    "freebsd-386",
    "freebsd-amd64",
    "freebsd-arm",
    "linux-386",
    "linux-amd64",
    "linux-arm",
    "linux-arm64",
    "netbsd-386",
    "netbsd-amd64",
    "netbsd-arm",
    "openbsd-386",
    "openbsd-amd64",
    "openbsd-arm",
    "openbsd-arm64",
    "windows-386",
    "windows-amd64",
    "windows-arm64"
  ]

  /** The same allowlist read per operating system. */
  function SupportedArchs(os: string): set<string> {
    match os
    case "darwin" => {"amd64", "arm64"}
    case "freebsd" => {"386", "amd64", "arm"}
    case "linux" => {"386", "amd64", "arm", "arm64"}
    case "netbsd" => {"386", "amd64", "arm"}
    case "openbsd" => {"386", "amd64", "arm", "arm64"}
    case "windows" => {"386", "amd64", "arm64"}
    case _ => {}
  }

  /** `Arrays.asList(validCombinations).contains(osname + "-" + arch)` */
  predicate PlatformSupported(os: string, arch: string) {
    os + "-" + arch in ValidCombinations
  }

  /** Each allowlist entry, split at its only dash. */
  const CombinationParts: seq<(string, string)> := [
    ("darwin", "amd64"), ("darwin", "arm64"),
    ("freebsd", "386"), ("freebsd", "amd64"), ("freebsd", "arm"),
    ("linux", "386"), ("linux", "amd64"), ("linux", "arm"), ("linux", "arm64"),
    ("netbsd", "386"), ("netbsd", "amd64"), ("netbsd", "arm"),
    ("openbsd", "386"), ("openbsd", "amd64"), ("openbsd", "arm"), ("openbsd", "arm64"),
    ("windows", "386"), ("windows", "amd64"), ("windows", "arm64")
  ]

  lemma CombinationPartsJoinLow()
    ensures |CombinationParts| == |ValidCombinations|
    ensures forall i :: 0 <= i < 10 ==>
      ValidCombinations[i] == CombinationParts[i].0 + "-" + CombinationParts[i].1
  {
  }

  lemma CombinationPartsJoinHigh()
    ensures |CombinationParts| == |ValidCombinations|
    ensures forall i :: 10 <= i < |CombinationParts| ==>
      ValidCombinations[i] == CombinationParts[i].0 + "-" + CombinationParts[i].1
  {
  }

  /** Every allow-list entry is the join of its os and arch parts. */
  lemma CombinationPartsJoin()
    ensures |CombinationParts| == |ValidCombinations|
    ensures forall i :: 0 <= i < |CombinationParts| ==>
      ValidCombinations[i] == CombinationParts[i].0 + "-" + CombinationParts[i].1
  {
    CombinationPartsJoinLow();
    CombinationPartsJoinHigh();
  }

  lemma CombinationPartsDashFree()
    ensures forall i :: 0 <= i < |CombinationParts| ==>
      '-' !in CombinationParts[i].0 && '-' !in CombinationParts[i].1
  {
  }

  lemma CombinationPartsInTable()
    ensures forall i :: 0 <= i < |CombinationParts| ==>
      CombinationParts[i].1 in SupportedArchs(CombinationParts[i].0)
  {
  }

  /** The allowlist accepts exactly the pairs the per-system table lists. */
  lemma PlatformSupportedIff(os: string, arch: string)
    ensures PlatformSupported(os, arch) <==> arch in SupportedArchs(os)
  {
    CombinationPartsJoin();
    CombinationPartsDashFree();
    CombinationPartsInTable();
    if PlatformSupported(os, arch) {
      var i :| 0 <= i < |ValidCombinations| && ValidCombinations[i] == os + "-" + arch;
      SplitUnique(os, arch, CombinationParts[i].0, CombinationParts[i].1, '-');
    }
    if arch in SupportedArchs(os) {
      assert (os, arch) in CombinationParts;
      var i :| 0 <= i < |CombinationParts| && CombinationParts[i] == (os, arch);
      assert ValidCombinations[i] == os + "-" + arch;
    }
  }

  /** `checkMissingPlatformSupport()`: throws `RuntimeException("OS not supported!")`. */
  function CheckMissingPlatformSupport(osNameProp: string, archProp: string): (r: Result<(), string>)
    ensures r.Err? ==> r.error == "OS not supported!"
    ensures r.Ok? <==> Architecture(osNameProp, archProp) in SupportedArchs(OsName(osNameProp))
  {
    PlatformSupportedIff(OsName(osNameProp), Architecture(osNameProp, archProp));
    if PlatformSupported(OsName(osNameProp), Architecture(osNameProp, archProp)) then Ok(())
    else Err("OS not supported!")
  }

  /** Windows names resolve by the case-sensitive search alone. */
  lemma WindowsNameExample()
    ensures OsName("Windows 11") == "windows"
  {
  }

  lemma LinuxNameExample()
    ensures OsName("Linux") == "linux"
  {
    assert ToLower("Linux") == "linux";
  }

  lemma MacNameExample()
    ensures OsName("Mac OS X") == "darwin"
  {
    assert ToLower("Mac OS X") == "mac os x";
  }

  /** Other systems keep their lower-cased name. */
  lemma FreeBsdNameExample()
    ensures OsName("FreeBSD") == "freebsd"
  {
    assert ToLower("FreeBSD") == "freebsd";
  }

  /** "x86_64" holds "64" and neither "386" nor "32". */
  lemma X8664Example()
    ensures Architecture("Linux", "x86_64") == "amd64"
  {
    LinuxNameExample();
  }

  lemma Aarch64Example()
    ensures Architecture("Linux", "aarch64") == "arm64"
  {
    LinuxNameExample();
  }

  /** The 32-bit test comes first, so a 32-bit ARM name is read as x86. */
  lemma Aarch32Example()
    ensures Architecture("Linux", "aarch32") == "386"
  {
    LinuxNameExample();
  }

  /** A name no rule matches passes through unchanged. */
  lemma PassThroughExample()
    ensures Architecture("Linux", "x86") == "x86" && Architecture("Linux", "arm") == "arm"
  {
    LinuxNameExample();
  }

  /** On macOS any ARM name means Apple silicon. */
  lemma MacArmExample()
    ensures Architecture("Mac OS X", "arm") == "arm64"
  {
    MacNameExample();
  }

  /** The search for "Windows" is case-sensitive: an upper-case name falls through to the raw name. */
  lemma WindowsIsCaseSensitive()
    ensures OsName("WINDOWS 10") == "windows 10"
  {
    assert ToLower("WINDOWS 10") == "windows 10";
  }

  /** ... and is then refused, although the machine runs Windows. */
  lemma UpperCaseWindowsRefused()
    ensures CheckMissingPlatformSupport("WINDOWS 10", "amd64").Err?
  {
    WindowsIsCaseSensitive();
  }

  /** Platforms the reporter publishes no archive for are refused. */
  lemma UnsupportedExamples()
    ensures !PlatformSupported("solaris", "sparc")
    ensures !PlatformSupported("windows", "arm")
  {
    PlatformSupportedIff("solaris", "sparc");
    PlatformSupportedIff("windows", "arm");
  }

  /** Windows on 32-bit ARM has no archive. */
  lemma WindowsArmRefused()
    ensures CheckMissingPlatformSupport("Windows 11", "arm").Err?
  {
    WindowsNameExample();
  }

  lemma LinuxAmd64Accepted()
    ensures CheckMissingPlatformSupport("Linux", "x86_64").Ok?
  {
    X8664Example();
  }

  lemma MacArm64Accepted()
    ensures CheckMissingPlatformSupport("Mac OS X", "aarch64").Ok?
  {
    MacNameExample();
  }
}
