/**
 * `FileUtil`: extracting the reporter's release archive. Each entry name is joined to the
 * destination directory and checked against it (the zip-slip guard); a directory entry then
 * creates its path, a file entry creates its parent and writes its bytes, replacing what is
 * there. The archive is a sequence of entries; the file system is a map from normalised paths
 * to nodes, the root and the working directory being implicit directories.
 */
module ZipExtract {
  import opened Wrappers
  import opened Paths

  datatype Node = Directory | RegularFile(content: seq<bv8>)

  type FileSystem = map<Path, Node>

  /** One archive entry: its name and, for a file, its bytes. */
  datatype Entry = Entry(name: string, content: seq<bv8>)

  /** `ZipEntry.isDirectory()`: the name ends with '/'. */
  predicate IsDirectoryEntry(e: Entry) {
    |e.name| > 0 && e.name[|e.name| - 1] == '/'
  }

  /**
   * Why an extraction stops: the guard's "Bad zip entry", something other than a directory
   * where `createDirectories` needs one, a path the system does not find to be a directory
   * after it ("Failed to create directory", see `DotDotThroughMissing`), a non-empty
   * directory (or a directory that always exists) where a file is to be written, a file
   * target whose last name is "." or "..", or the `NullPointerException` of
   * `createDirectories(null)` for a path without a parent.
   */
  datatype Failure =
    | BadEntry(name: string)
    | NotADirectory(path: Path)
    | NotCreated(path: Path)
    | DirectoryNotEmpty(path: Path)
    | NotAFile(path: Path)
    | NullParent

  /** `Path.of(destinationDir.toString(), entryName)` */
  function Joined(dest: Path, name: string): Path {
    OfTwo(Render(dest), name)
  }

  /**
   * A normal path `p` lies in `dest`: it goes down from `dest` and never up. For a relative
   * `dest` made only of ".." names, starting with `dest` is not enough: "../.." starts with
   * ".." but is its parent.
   */
  predicate Inside(p: Path, dest: Path) {
    StartsWith(p, dest) && forall i :: |dest.names| <= i < |p.names| ==> p.names[i] != ".."
  }

  /** A destination that is absolute, empty, or names something other than "..". */
  predicate WellBased(dest: Path) {
    dest.absolute || dest == EmptyPath || exists i :: 0 <= i < |dest.names| && dest.names[i] != ".."
  }

  /**
   * Under a well-based destination, starting with it is lying in it: a normal path has ".."
   * only at its start, and only when it is relative.
   */
  lemma StartsWithInside(n: Path, dest: Path)
    requires IsNormal(n) && StartsWith(n, dest) && WellBased(dest)
    ensures Inside(n, dest)
  {
    if dest != EmptyPath {
      forall i | |dest.names| <= i < |n.names|
        ensures n.names[i] != ".."
      {
        if !dest.absolute {
          var j :| 0 <= j < |dest.names| && dest.names[j] != "..";
          assert n.names[j] == dest.names[j];
        }
      }
    }
  }

  /**
   * `resolveZipEntryPath()` as written: the joined path, when its normal form starts with
   * `dest`. For a well-based destination what it accepts lies inside the destination.
   */
  function ResolveAsWritten(dest: Path, name: string): (r: Result<Path, Failure>)
    ensures r.Err? ==> r.error == BadEntry(name)
    ensures r.Ok? && WellBased(dest) ==> Inside(Normalize(r.value), dest)
  {
    var j := Joined(dest, name);
    if StartsWith(Normalize(j), dest) then
      NormalizeIdempotent(j);
      if WellBased(dest) then StartsWithInside(Normalize(j), dest); Ok(j) else Ok(j)
    else Err(BadEntry(name))
  }

  /**
   * The guard as intended: the normal form of the joined path, when it lies in `dest`. It
   * accepts only what the guard as written accepts, and hands on the normal form of what that
   * guard returns, so that `createDirectories` never walks outside the destination.
   */
  function ResolveZipEntryPath(dest: Path, name: string): (r: Result<Path, Failure>)
    ensures r.Err? ==> r.error == BadEntry(name)
    ensures r.Ok? ==> IsNormal(r.value) && Inside(r.value, dest)
    ensures r.Ok? ==> ResolveAsWritten(dest, name).Ok? && r.value == Normalize(ResolveAsWritten(dest, name).value)
  {
    var n := Normalize(Joined(dest, name));
    NormalizeIdempotent(Joined(dest, name));
    if Inside(n, dest) then Ok(n) else Err(BadEntry(name))
  }

  /**
   * The two guards accept the same names except under relative destinations made only of
   * ".." names, and the intended one returns the normal form of what the written one returns.
   */
  lemma GuardsAgree(dest: Path, name: string)
    requires WellBased(dest)
    ensures ResolveAsWritten(dest, name).Ok? <==> ResolveZipEntryPath(dest, name).Ok?
    ensures ResolveAsWritten(dest, name).Ok? ==>
      ResolveZipEntryPath(dest, name).value == Normalize(ResolveAsWritten(dest, name).value)
  {
  }

  /** Which zip-slip guard an extraction runs: the one of the code, or the intended one. */
  datatype Guard = AsWritten | Intended

  function Resolved(guard: Guard, dest: Path, name: string): Result<Path, Failure> {
    if guard.AsWritten? then ResolveAsWritten(dest, name) else ResolveZipEntryPath(dest, name)
  }

  /** The guard keeps every accepted path inside the destination. */
  predicate SoundFor(guard: Guard, dest: Path) {
    guard.Intended? || WellBased(dest)
  }

  /** Joining a destination and the string form of some names appends the names. */
  lemma JoinedNames(dest: Path, tail: seq<PathName>, name: string)
    requires dest != EmptyPath && name == JoinNames(tail)
    ensures Joined(dest, name) == Path(dest.absolute, dest.names + tail)
  {
    NamesOfJoin(tail);
    OfTwoRender(dest, name);
  }

  /** The names of "../evil". */
  lemma NamesOfUp()
    ensures JoinNames(["..", "evil"]) == "../evil"
  {
  }

  /** The guard as written lets a ".." destination reach its own parent. */
  lemma DotDotDestinationEscapes()
    ensures ResolveAsWritten(Path(false, [".."]), "../evil") == Ok(Path(false, ["..", "..", "evil"]))
    ensures Normalize(Path(false, ["..", "..", "evil"])) == Path(false, ["..", "..", "evil"])
    ensures !Inside(Path(false, ["..", "..", "evil"]), Path(false, [".."]))
    ensures ResolveZipEntryPath(Path(false, [".."]), "../evil").Err?
  {
    var tail: seq<PathName> := ["..", "evil"];
    NamesOfUp();
    JoinedNames(Path(false, [".."]), tail, "../evil");
    assert [".."] + tail == ["..", "..", "evil"];
    var n := Path(false, ["..", "..", "evil"]);
    assert IsNormal(n);
    NormalFixpoint(false, n.names);
  }

  /**
   * An entry name without ".." names is accepted by both guards under a normal, non-empty
   * destination; the guard as written returns the joined path, not its normal form.
   */
  lemma PlainNameAccepted(dest: Path, name: string)
    requires IsNormal(dest) && dest != EmptyPath
    requires forall i :: 0 <= i < |Names(name)| ==> Names(name)[i] != ".."
    ensures ResolveAsWritten(dest, name) == Ok(Path(dest.absolute, dest.names + Names(name)))
    ensures ResolveZipEntryPath(dest, name).Ok?
  {
    OfTwoRender(dest, name);
    NormAppend(dest.absolute, dest.names, Names(name));
    var n := Normalize(Joined(dest, name));
    assert n.names[..|dest.names|] == dest.names;
  }

  /** The names of "../../evil". */
  lemma NamesOfClimb()
    ensures JoinNames(["..", "..", "evil"]) == "../../evil"
  {
  }

  /** A normal path without its last name is normal, and that name is no ".". */
  lemma NormalInit(p: Path)
    requires IsNormal(p) && |p.names| >= 1
    ensures NormNames(p.absolute, p.names[..|p.names| - 1]) == p.names[..|p.names| - 1]
    ensures p.names[|p.names| - 1] != "."
  {
    var init := p.names[..|p.names| - 1];
    assert IsNormal(Path(p.absolute, init));
    NormalFixpoint(p.absolute, init);
  }

  /**
   * Two ".." names and a name after a normal path ending in a real name `x`: the first ".."
   * cancels `x`, the second takes one normalisation step from what is left.
   */
  lemma ClimbNormalForm(absolute: bool, d: seq<PathName>, x: PathName)
    requires NormNames(absolute, d) == d && x != "." && x != ".."
    ensures NormNames(absolute, d + [x, "..", "..", "evil"]) == Step(absolute, d, "..") + ["evil"]
  {
    var up := d + [x, ".."];
    var upUp := d + [x, "..", ".."];
    CancelPair(absolute, d, x);
    NormSnoc(absolute, up, "..");
    assert up + [".."] == upUp;
    NormSnoc(absolute, upUp, "evil");
    assert upUp + ["evil"] == d + [x, "..", "..", "evil"];
  }

  /**
   * Climbing out by two levels is refused under a normal destination that ends in a real
   * name, except for the destination "/evil", which the climb lands on.
   */
  lemma DotDotEvilRejected(dest: Path)
    requires IsNormal(dest) && |dest.names| >= 1 && dest.names[|dest.names| - 1] != ".."
    requires dest != Path(true, ["evil"])
    ensures ResolveAsWritten(dest, "../../evil").Err?
    ensures ResolveZipEntryPath(dest, "../../evil").Err?
  {
    var k := |dest.names|;
    var d := dest.names[..k - 1];
    var x := dest.names[k - 1];
    assert dest.names == d + [x];
    NormalInit(dest);
    NamesOfClimb();
    JoinedNames(dest, ["..", "..", "evil"], "../../evil");
    assert dest.names + ["..", "..", "evil"] == d + [x, "..", "..", "evil"];
    ClimbNormalForm(dest.absolute, d, x);
    ClimbLandsElsewhere(dest.absolute, d, x);
  }

  /** Where the climb lands does not start with the destination `d + [x]`. */
  lemma ClimbLandsElsewhere(absolute: bool, d: seq<PathName>, x: PathName)
    requires IsNormal(Path(absolute, d + [x])) && x != ".."
    requires Path(absolute, d + [x]) != Path(true, ["evil"])
    ensures !StartsWith(Path(absolute, Step(absolute, d, "..") + ["evil"]), Path(absolute, d + [x]))
  {
    var n := Step(absolute, d, "..") + ["evil"];
    var k := |d| + 1;
    if |d| > 0 {
      assert (d + [x])[|d| - 1] == d[|d| - 1];
    }
    if |d| > 0 && d[|d| - 1] != ".." {
      assert |n| < k;
    } else if absolute {
      assert d == [];
      assert n == ["evil"] && x != "evil";
    } else {
      assert n == d + [".."] + ["evil"];
      assert n[k - 1] != (d + [x])[k - 1];
    }
  }

  /** The one exception: climbing out of "/evil" lands on "/evil" itself. */
  lemma EvilDestinationAcceptsClimb()
    ensures ResolveAsWritten(Path(true, ["evil"]), "../../evil").Ok?
    ensures Normalize(ResolveAsWritten(Path(true, ["evil"]), "../../evil").value) == Path(true, ["evil"])
  {
    var dest := Path(true, ["evil"]);
    NamesOfClimb();
    JoinedNames(dest, ["..", "..", "evil"], "../../evil");
    assert dest.names + ["..", "..", "evil"] == [] + ["evil", "..", "..", "evil"];
    ClimbNormalForm(true, [], "evil");
  }

  /** At the root, ".." stays at the root. */
  lemma RootClimbNormalForm()
    ensures NormNames(true, ["..", "..", "evil"]) == ["evil"]
  {
    var one: seq<PathName> := [".."];
    var two: seq<PathName> := ["..", ".."];
    NormSnoc(true, [], "..");
    assert [] + one == one;
    assert NormNames(true, one) == [];
    NormSnoc(true, one, "..");
    assert one + [".."] == two;
    assert NormNames(true, two) == [];
    NormSnoc(true, two, "evil");
    assert two + ["evil"] == ["..", "..", "evil"];
  }

  /** Under the root everything is inside: "../../evil" is accepted and lands at "/evil". */
  lemma RootAcceptsClimb()
    ensures ResolveAsWritten(Path(true, []), "../../evil").Ok?
    ensures Normalize(ResolveAsWritten(Path(true, []), "../../evil").value) == Path(true, ["evil"])
  {
    NamesOfClimb();
    JoinedNames(Path(true, []), ["..", "..", "evil"], "../../evil");
    RootClimbNormalForm();
    var j := Joined(Path(true, []), "../../evil");
    assert j == Path(true, ["..", "..", "evil"]);
    assert Normalize(j) == Path(true, ["evil"]);
  }

  /** The empty destination only accepts entries that normalise to nothing. */
  lemma EmptyDestinationRejects()
    ensures ResolveAsWritten(EmptyPath, "x").Err?
  {
    NamesOfName("x");
  }

  /** `UnixPath.getParent()`: `null` without names, or for a single relative name. */
  function Parent(p: Path): (r: Option<Path>)
    ensures r.Some? <==> |p.names| >= 2 || (|p.names| == 1 && p.absolute)
    ensures r.Some? ==> r.value.absolute == p.absolute && p.names == r.value.names + [p.names[|p.names| - 1]]
  {
    if |p.names| == 0 || (|p.names| == 1 && !p.absolute) then None
    else Some(Path(p.absolute, p.names[..|p.names| - 1]))
  }

  /** Resolving the last name against the parent gives the path back, and the parent is shorter. */
  lemma ParentResolve(p: Path)
    requires Parent(p).Some?
    ensures |Parent(p).value.names| < |p.names|
    ensures Resolve(Parent(p).value, Path(false, [p.names[|p.names| - 1]])) == p
  {
  }

  /** The normal form of the first `k` names of `p`: where the system stands after walking them. */
  function Prefix(p: Path, k: nat): Path
    requires k <= |p.names|
  {
    Normalize(Path(p.absolute, p.names[..k]))
  }

  /**
   * A normal path that is a directory: the root, the working directory or one above it
   * (these always exist), or a directory node.
   */
  predicate DirectoryAt(fs: FileSystem, n: Path) {
    Upward(n) || (n in fs && fs[n].Directory?)
  }

  /** Something other than a directory stands where the walk of `p` is after `k` or more names. */
  predicate BlockedFrom(fs: FileSystem, p: Path, k: nat) {
    exists j :: k <= j <= |p.names| && Prefix(p, j) in fs && !DirectoryAt(fs, Prefix(p, j))
  }

  /**
   * What can stop `createDirectories(p)`: something other than a directory where the raw
   * walk of `p` stands after some of its names, or on the walk of its normal form.
   */
  predicate BlockedSomewhere(fs: FileSystem, p: Path) {
    (exists k :: 0 <= k <= |p.names| && Prefix(p, k) in fs && !DirectoryAt(fs, Prefix(p, k)))
    || BlockedFrom(fs, Normalize(p), 0)
  }

  /**
   * `fs1` keeps every node of `fs0`, and each path it adds is a directory where the walk of
   * `p` stands after `k` or more names.
   */
  predicate GrownOnWalk(fs0: FileSystem, fs1: FileSystem, p: Path, k: nat) {
    (forall n :: n in fs0 ==> n in fs1 && fs1[n] == fs0[n])
    && forall n :: n in fs1 && n !in fs0 ==> fs1[n] == Directory && exists j :: k <= j <= |p.names| && n == Prefix(p, j)
  }

  /** The file system after part of a run, and the failure that ended it, if any. */
  datatype Run = Run(failure: Option<Failure>, fs: FileSystem)

  /**
   * `Files.createDirectories(p)` from the `k`-th name of `p` on. The system walks `p` as
   * given, name by name, a name before a ".." included: a prefix that is a directory is
   * passed, a missing one is created, and anything else stops the walk, the directories
   * created so far staying in place.
   */
  function CreatedFrom(fs: FileSystem, p: Path, k: nat): (r: Run)
    ensures GrownOnWalk(fs, r.fs, p, k)
    ensures r.failure.Some? <==> BlockedFrom(fs, p, k)
    ensures r.failure.Some? ==> r.failure == Some(NotADirectory(p))
    decreases |p.names| + 1 - k
  {
    if k > |p.names| then Run(None, fs)
    else if DirectoryAt(fs, Prefix(p, k)) then CreatedFrom(fs, p, k + 1)
    else if Prefix(p, k) in fs then Run(Some(NotADirectory(p)), fs)
    else CreatedFrom(fs[Prefix(p, k) := Directory], p, k + 1)
  }

  /**
   * Where `Files.createDirectories(p)` starts, looking at the raw prefixes of `p` from the
   * `k`-th on: the last one before the first that does not exist, which is a directory. `None`
   * when something other than a directory stands on the way first, which makes the system
   * answer "Not a directory". The prefixes before the `k`-th are directories.
   */
  function AnchorFrom(fs: FileSystem, p: Path, k: nat): (r: Option<nat>)
    requires 1 <= k <= |p.names|
    ensures r.Some? ==> k - 1 <= r.value < |p.names|
    ensures r.Some? ==> forall i :: k <= i <= r.value ==> DirectoryAt(fs, Prefix(p, i))
    ensures r.None? <==> BlockedBefore(fs, p, k)
    decreases |p.names| - k
  {
    if k == |p.names| then Some(k - 1)
    else if DirectoryAt(fs, Prefix(p, k)) then BlockedPast(fs, p, k); AnchorFrom(fs, p, k + 1)
    else if Prefix(p, k) in fs then None
    else Some(k - 1)
  }

  /**
   * Where the search stops short of the last name, the next raw prefix is missing: it is
   * neither in the file system nor a directory that always exists.
   */
  lemma {:induction false} AnchorNextMissing(fs: FileSystem, p: Path, k: nat)
    requires 1 <= k <= |p.names|
    ensures var r := AnchorFrom(fs, p, k);
      r.Some? && r.value + 1 < |p.names| ==>
        Prefix(p, r.value + 1) !in fs && !DirectoryAt(fs, Prefix(p, r.value + 1))
    decreases |p.names| - k
  {
    if k < |p.names| && DirectoryAt(fs, Prefix(p, k)) {
      AnchorNextMissing(fs, p, k + 1);
    }
  }

  /**
   * Walking the raw prefixes of `p` from the `k`-th on, a non-directory is met before a
   * missing prefix and before the last name.
   */
  predicate BlockedBefore(fs: FileSystem, p: Path, k: nat) {
    exists f :: k <= f < |p.names| && Prefix(p, f) in fs && !DirectoryAt(fs, Prefix(p, f))
      && forall i :: k <= i < f ==> DirectoryAt(fs, Prefix(p, i))
  }

  /** Past a directory, what blocks the search from the `k`-th prefix blocks it from the next. */
  lemma BlockedPast(fs: FileSystem, p: Path, k: nat)
    requires 1 <= k < |p.names| && DirectoryAt(fs, Prefix(p, k))
    ensures BlockedBefore(fs, p, k) <==> BlockedBefore(fs, p, k + 1)
  {
    if BlockedBefore(fs, p, k + 1) {
      var f :| k + 1 <= f < |p.names| && Prefix(p, f) in fs && !DirectoryAt(fs, Prefix(p, f))
        && forall i :: k + 1 <= i < f ==> DirectoryAt(fs, Prefix(p, i));
      assert forall i :: k <= i < f ==> DirectoryAt(fs, Prefix(p, i));
    }
  }

  /** The number of leading names `a` and `b` share. */
  function CommonLength(a: seq<PathName>, b: seq<PathName>): (n: nat)
    ensures n <= |a| && n <= |b| && a[..n] == b[..n]
    ensures n < |a| && n < |b| ==> a[n] != b[n]
  {
    if a == [] || b == [] || a[0] != b[0] then 0
    else
      var m := CommonLength(a[1..], b[1..]);
      assert a[..m + 1] == [a[0]] + a[1..][..m] && b[..m + 1] == [b[0]] + b[1..][..m];
      m + 1
  }

  /**
   * `Files.createDirectories(p)`. From the raw prefix it starts at (`AnchorFrom`), Java goes
   * by `relativize`, which compares normal forms: up to what that prefix shares with the
   * normal form of `p`, through directories that exist, then down the normal form, passing
   * directories, creating what is missing and stopping at anything else. Only prefixes of the
   * normal form are ever created.
   */
  function DirectoriesCreated(fs: FileSystem, p: Path): (r: Run)
    ensures GrownOnWalk(fs, r.fs, Normalize(p), 0)
    ensures r.failure.Some? ==> r.failure == Some(NotADirectory(p)) && BlockedSomewhere(fs, p)
    ensures r.failure.None? ==> DirectoryAt(r.fs, Normalize(p))
  {
    if |p.names| == 0 then Run(None, fs)
    else
      match AnchorFrom(fs, p, 1)
      case None => Run(Some(NotADirectory(p)), fs)
      case Some(j) => WalkedDownMakes(fs, p, j); WalkedDown(fs, p, j)
  }

  /**
   * The normal forms of the raw prefixes of a path pass through every ancestor of its normal
   * form: one name moves one level up or down, or stays.
   */
  lemma {:induction false} PrefixesPassAncestors(absolute: bool, names: seq<PathName>, m: nat)
    requires m <= |NormNames(absolute, names)|
    ensures exists i :: 0 <= i <= |names| && NormNames(absolute, names[..i]) == NormNames(absolute, names)[..m]
    decreases |names|
  {
    var s := NormNames(absolute, names);
    if m == |s| {
      assert names[..|names|] == names;
    } else {
      var init := names[..|names| - 1];
      var t := NormNames(absolute, init);
      assert m <= |t| && s[..m] == t[..m];
      PrefixesPassAncestors(absolute, init, m);
      var i :| 0 <= i <= |init| && NormNames(absolute, init[..i]) == t[..m];
      assert init[..i] == names[..i];
    }
  }

  /** A walk of a normal path that is not stopped ends with the path a directory. */
  lemma WalkEndsAtTarget(fs: FileSystem, n: Path, k: nat)
    requires IsNormal(n) && k <= |n.names| && CreatedFrom(fs, n, k).failure.None?
    ensures DirectoryAt(CreatedFrom(fs, n, k).fs, n)
  {
    WalkLeavesDirectories(fs, n, k);
    assert n.names[..|n.names|] == n.names;
    NormalFixpoint(n.absolute, n.names);
    assert Prefix(n, |n.names|) == n;
  }

  /** An ancestor of the prefix where the search ends was passed by the search: it is a directory. */
  lemma AncestorPassed(fs: FileSystem, p: Path, j: nat)
    requires 1 <= |p.names| && AnchorFrom(fs, p, 1) == Some(j)
    requires IsNamePrefix(Normalize(p).names, Prefix(p, j).names)
    ensures DirectoryAt(fs, Normalize(p))
  {
    var n := Normalize(p);
    var pj := p.names[..j];
    var s := NormNames(p.absolute, pj);
    assert Prefix(p, j).names == s;
    assert s[..|n.names|] == n.names;
    PrefixesPassAncestors(p.absolute, pj, |n.names|);
    var i :| 0 <= i <= |pj| && NormNames(p.absolute, pj[..i]) == s[..|n.names|];
    assert pj[..i] == p.names[..i];
    assert Prefix(p, i) == n;
    if i == 0 {
      assert Upward(n);
    }
  }

  /**
   * From the prefix where the search ends, a walk down that is not stopped leaves the normal
   * form of the path a directory: either the walk makes it, or it is an ancestor of that
   * prefix, which the search passed.
   */
  lemma WalkedDownMakes(fs: FileSystem, p: Path, j: nat)
    requires 1 <= |p.names| && AnchorFrom(fs, p, 1) == Some(j)
    ensures WalkedDown(fs, p, j).failure.None? ==> DirectoryAt(WalkedDown(fs, p, j).fs, Normalize(p))
  {
    var n := Normalize(p);
    var c := CommonLength(Prefix(p, j).names, n.names);
    var w := CreatedFrom(fs, n, c + 1);
    assert WalkedDown(fs, p, j) == Run(if w.failure.Some? then Some(NotADirectory(p)) else None, w.fs);
    if w.failure.None? {
      if c + 1 <= |n.names| {
        NormNamesIsNormal(p.absolute, p.names);
        WalkEndsAtTarget(fs, n, c + 1);
      } else {
        assert w.fs == fs;
        AncestorPassed(fs, p, j);
      }
    }
  }

  /**
   * The part of `createDirectories(p)` that follows `relativize`, from the raw prefix of
   * length `j`: down the normal form of `p` after what that prefix shares with it.
   */
  function WalkedDown(fs: FileSystem, p: Path, j: nat): (r: Run)
    requires j <= |p.names|
    ensures GrownOnWalk(fs, r.fs, Normalize(p), 0)
    ensures r.failure.Some? ==> r.failure == Some(NotADirectory(p)) && BlockedFrom(fs, Normalize(p), 0)
  {
    var n := Normalize(p);
    var w := CreatedFrom(fs, n, CommonLength(Prefix(p, j).names, n.names) + 1);
    Run(if w.failure.Some? then Some(NotADirectory(p)) else None, w.fs)
  }

  /** A walk that is not stopped leaves every prefix from the `k`-th on a directory. */
  lemma {:induction false} WalkLeavesDirectories(fs: FileSystem, p: Path, k: nat)
    requires CreatedFrom(fs, p, k).failure.None?
    ensures forall j :: k <= j <= |p.names| ==> DirectoryAt(CreatedFrom(fs, p, k).fs, Prefix(p, j))
    decreases |p.names| + 1 - k
  {
    if k <= |p.names| {
      var n := Prefix(p, k);
      var next := if DirectoryAt(fs, n) then fs else fs[n := Directory];
      assert CreatedFrom(fs, p, k) == CreatedFrom(next, p, k + 1);
      assert DirectoryAt(next, n);
      WalkLeavesDirectories(next, p, k + 1);
    }
  }

  /** A walk over directories only creates nothing and succeeds. */
  lemma {:induction false} WalkThroughDirectories(fs: FileSystem, p: Path, k: nat)
    requires forall j :: k <= j <= |p.names| ==> DirectoryAt(fs, Prefix(p, j))
    ensures CreatedFrom(fs, p, k) == Run(None, fs)
    decreases |p.names| + 1 - k
  {
    if k <= |p.names| {
      WalkThroughDirectories(fs, p, k + 1);
    }
  }

  /** One step of the walk over a directory. */
  lemma WalkPasses(fs: FileSystem, p: Path, k: nat)
    requires k <= |p.names| && DirectoryAt(fs, Prefix(p, k))
    ensures CreatedFrom(fs, p, k) == CreatedFrom(fs, p, k + 1)
  {
  }

  /** One step of the walk that creates a missing directory. */
  lemma WalkCreates(fs: FileSystem, p: Path, k: nat)
    requires k <= |p.names| && !DirectoryAt(fs, Prefix(p, k)) && Prefix(p, k) !in fs
    ensures CreatedFrom(fs, p, k) == CreatedFrom(fs[Prefix(p, k) := Directory], p, k + 1)
  {
  }

  /**
   * `Files.isDirectory(p)`. The system resolves `p` as given, name by name, a name before a
   * ".." included: every raw prefix must be a directory.
   */
  predicate IsDirectoryOnDisk(fs: FileSystem, p: Path) {
    forall k :: 0 <= k <= |p.names| ==> DirectoryAt(fs, Prefix(p, k))
  }

  /** `createDirectories` then the `isDirectory` check of `unzipFile()`. */
  function DirectoryMade(fs: FileSystem, p: Path): (r: Run)
    ensures GrownOnWalk(fs, r.fs, Normalize(p), 0)
    ensures r.failure.None? ==> IsDirectoryOnDisk(r.fs, p)
    ensures r.failure.Some? ==> r.failure == Some(NotADirectory(p)) || r.failure == Some(NotCreated(p))
    ensures r.failure == Some(NotADirectory(p)) ==> BlockedSomewhere(fs, p)
    ensures r.failure == Some(NotCreated(p)) ==>
      DirectoriesCreated(fs, p) == Run(None, r.fs) && !IsDirectoryOnDisk(r.fs, p)
  {
    var made := DirectoriesCreated(fs, p);
    if made.failure.None? && !IsDirectoryOnDisk(made.fs, p) then Run(Some(NotCreated(p)), made.fs) else made
  }

  /** How `createDirectories` of a normal path goes on from where its search ends. */
  function Resumed(fs: FileSystem, p: Path, anchor: Option<nat>): Run {
    match anchor
    case None => Run(Some(NotADirectory(p)), fs)
    case Some(j) => CreatedFrom(fs, p, j + 1)
  }

  /** For a normal path the search for the starting prefix is part of the walk down. */
  lemma {:induction false} AnchorOfNormal(fs: FileSystem, p: Path, k: nat)
    requires 1 <= k <= |p.names|
    ensures Resumed(fs, p, AnchorFrom(fs, p, k)) == CreatedFrom(fs, p, k)
    decreases |p.names| - k
  {
    if k == |p.names| {
      assert AnchorFrom(fs, p, k) == Some(k - 1);
    } else if DirectoryAt(fs, Prefix(p, k)) {
      assert AnchorFrom(fs, p, k) == AnchorFrom(fs, p, k + 1);
      WalkPasses(fs, p, k);
      AnchorOfNormal(fs, p, k + 1);
    } else if Prefix(p, k) in fs {
      assert AnchorFrom(fs, p, k) == None;
      assert CreatedFrom(fs, p, k) == Run(Some(NotADirectory(p)), fs);
    } else {
      assert AnchorFrom(fs, p, k) == Some(k - 1);
    }
  }

  /** A normal path names its own prefixes. */
  lemma NormalPrefix(p: Path, j: nat)
    requires IsNormal(p) && j <= |p.names|
    ensures Prefix(p, j) == Path(p.absolute, p.names[..j])
  {
    assert IsNormal(Path(p.absolute, p.names[..j]));
    NormalFixpoint(p.absolute, p.names[..j]);
  }

  /** A sequence shares its whole prefix of length `j` with itself. */
  lemma CommonOfPrefix(a: seq<PathName>, j: nat)
    requires j <= |a|
    ensures CommonLength(a[..j], a) == j
  {
  }

  /** From a raw prefix of a normal path, the walk down goes on right after that prefix. */
  lemma WalkedDownNormal(fs: FileSystem, p: Path, j: nat)
    requires IsNormal(p) && j <= |p.names|
    ensures WalkedDown(fs, p, j) == CreatedFrom(fs, p, j + 1)
  {
    NormalFixpoint(p.absolute, p.names);
    assert Normalize(p) == p;
    NormalPrefix(p, j);
    CommonOfPrefix(p.names, j);
  }

  /** The walk down a normal path starts right after the prefix its search ends at. */
  lemma ResumeNormal(fs: FileSystem, p: Path)
    requires IsNormal(p) && |p.names| > 0
    ensures DirectoriesCreated(fs, p) == Resumed(fs, p, AnchorFrom(fs, p, 1))
  {
    if AnchorFrom(fs, p, 1).Some? {
      WalkedDownNormal(fs, p, AnchorFrom(fs, p, 1).value);
    }
  }

  /** For a normal path `createDirectories` is the walk of its prefixes from the root down. */
  lemma NormalCreated(fs: FileSystem, p: Path)
    requires IsNormal(p)
    ensures DirectoriesCreated(fs, p) == CreatedFrom(fs, p, 0)
  {
    NormalPrefix(p, 0);
    WalkPasses(fs, p, 0);
    if |p.names| > 0 {
      AnchorOfNormal(fs, p, 1);
      ResumeNormal(fs, p);
    }
  }

  /**
   * For a normal path, such as every path the intended guard hands on, the `isDirectory`
   * check after `createDirectories` never fails: a walk that is not stopped leaves every
   * prefix a directory.
   */
  lemma DirectoryCheckPasses(fs: FileSystem, p: Path)
    requires IsNormal(p)
    ensures DirectoryMade(fs, p) == DirectoriesCreated(fs, p)
  {
    NormalCreated(fs, p);
    if DirectoriesCreated(fs, p).failure.None? {
      WalkLeavesDirectories(fs, p, 0);
    }
  }

  predicate HasChildren(fs: FileSystem, n: Path) {
    exists k :: k in fs && k.absolute == n.absolute && |k.names| > |n.names| && k.names[..|n.names|] == n.names
  }

  /**
   * A path made only of ".." names, or of none: the root, the working directory or a directory
   * above it. Each of them exists and is never empty.
   */
  predicate Upward(n: Path) {
    forall i :: 0 <= i < |n.names| ==> n.names[i] == ".."
  }

  /**
   * The raw path ends in "." or "..". The system refuses to remove such a path
   * (`deleteIfExists`) and to create one (`CREATE_NEW`), whatever it resolves to.
   */
  predicate DotLast(p: Path) {
    |p.names| > 0 && (p.names[|p.names| - 1] == "." || p.names[|p.names| - 1] == "..")
  }

  /**
   * `Files.copy(in, p, REPLACE_EXISTING)`: the raw target is removed if it exists, then created
   * anew. So a target ending in "." or ".." fails, and so does one that resolves to a
   * directory with entries or to a directory that always exists; an existing file or empty
   * directory is replaced.
   */
  function FileCopied(fs: FileSystem, p: Path, content: seq<bv8>): (r: Result<FileSystem, Failure>)
    ensures r.Err? <==> (DotLast(p) || Upward(Normalize(p))
                         || (Normalize(p) in fs && fs[Normalize(p)].Directory? && HasChildren(fs, Normalize(p))))
    ensures r.Err? ==> r.error == (if DotLast(p) then NotAFile(p) else DirectoryNotEmpty(p))
    ensures r.Ok? ==> r.value == fs[Normalize(p) := RegularFile(content)]
  {
    var n := Normalize(p);
    if DotLast(p) then Err(NotAFile(p))
    else if Upward(n) || (n in fs && fs[n].Directory? && HasChildren(fs, n)) then Err(DirectoryNotEmpty(p))
    else Ok(fs[n := RegularFile(content)])
  }

  /**
   * `REPLACE_EXISTING`: a second copy to the same path succeeds and leaves the files as if
   * only the second copy had been made; the first one's bytes are gone.
   */
  lemma CopyReplaces(fs: FileSystem, p: Path, first: seq<bv8>, second: seq<bv8>)
    requires FileCopied(fs, p, first).Ok?
    ensures FileCopied(FileCopied(fs, p, first).value, p, second) == FileCopied(fs, p, second)
    ensures FileCopied(fs, p, second).Ok?
    ensures FileCopied(fs, p, second).value[Normalize(p)] == RegularFile(second)
  {
    var n := Normalize(p);
    var fs1 := FileCopied(fs, p, first).value;
    assert fs1[n] == RegularFile(first);
    assert fs1[n := RegularFile(second)] == fs[n := RegularFile(second)];
    if n in fs && fs[n].Directory? && HasChildren(fs, n) {
      assert false;
    }
  }

  /** A regular file at `n` holding `content`. */
  predicate FileHolds(fs: FileSystem, n: Path, content: seq<bv8>) {
    n in fs && fs[n] == RegularFile(content)
  }

  /** The file entry's part of an iteration: its parent directory, then the copy. */
  function FileExtracted(fs: FileSystem, p: Path, q: Path, content: seq<bv8>): (r: Run)
    ensures fs.Keys <= r.fs.Keys
    ensures r.failure.None? ==> FileHolds(r.fs, Normalize(p), content)
  {
    var made := DirectoryMade(fs, q);
    if made.failure.Some? then made
    else
      match FileCopied(made.fs, p, content)
      case Err(f) => Run(Some(f), made.fs)
      case Ok(fs2) => Run(None, fs2)
  }

  /**
   * One iteration of `unzipFile()`'s loop. It removes no path; when it succeeds, a directory
   * entry's path is a directory and a file entry's path holds the entry's bytes. A file entry
   * whose copy fails keeps the parents it created.
   */
  function Extract(fs: FileSystem, dest: Path, e: Entry, guard: Guard): (r: Run)
    ensures fs.Keys <= r.fs.Keys
    ensures r.failure.None? ==> Resolved(guard, dest, e.name).Ok?
    ensures r.failure.None? && IsDirectoryEntry(e) ==> IsDirectoryOnDisk(r.fs, Resolved(guard, dest, e.name).value)
    ensures r.failure.None? && !IsDirectoryEntry(e) ==>
      FileHolds(r.fs, Normalize(Resolved(guard, dest, e.name).value), e.content)
  {
    match Resolved(guard, dest, e.name)
    case Err(f) => Run(Some(f), fs)
    case Ok(p) =>
      if IsDirectoryEntry(e) then DirectoryMade(fs, p)
      else
        match Parent(p)
        case None => Run(Some(NullParent), fs)
        case Some(q) => FileExtracted(fs, p, q, e.content)
  }

  /** `unzipFile()`: the entries in archive order, stopping at the first failure; no path is removed. */
  function Unzip(fs: FileSystem, dest: Path, es: seq<Entry>, guard: Guard): (r: Run)
    ensures fs.Keys <= r.fs.Keys
    decreases |es|
  {
    if es == [] then Run(None, fs)
    else
      var r := Extract(fs, dest, es[0], guard);
      if r.failure.Some? then r else Unzip(r.fs, dest, es[1..], guard)
  }

  /** The file system the extraction writes to, changed in place. */
  class FileStore {
    var files: FileSystem

    constructor (initial: FileSystem)
      ensures files == initial
    {
      files := initial;
    }

    /** `createDirectories(p)` followed by the `isDirectory(p)` check. */
    method CreateDirectories(p: Path) returns (failure: Option<Failure>)
      modifies this
      ensures var r := DirectoryMade(old(files), p);
        failure == r.failure && files == r.fs
    {
      var made := DirectoriesCreated(files, p);
      files := made.fs;
      if made.failure.Some? {
        return made.failure;
      }
      if !IsDirectoryOnDisk(files, p) {
        return Some(NotCreated(p));
      }
      failure := None;
    }

    method Copy(p: Path, content: seq<bv8>) returns (failure: Option<Failure>)
      modifies this
      ensures var r := FileCopied(old(files), p, content);
        (r.Err? ==> failure == Some(r.error) && files == old(files))
        && (r.Ok? ==> failure == None && files == r.value)
    {
      var r := FileCopied(files, p, content);
      if r.Err? {
        return Some(r.error);
      }
      files := r.value;
      failure := None;
    }
  }

  /** `unzipFile()`: the `while` loop over the entries, with the guard as written. */
  method UnzipFile(store: FileStore, dest: Path, entries: seq<Entry>) returns (failure: Option<Failure>)
    modifies store
    ensures Run(failure, store.files) == Unzip(old(store.files), dest, entries, AsWritten)
  {
    var i := 0;
    while i < |entries|
      invariant 0 <= i <= |entries|
      invariant Unzip(store.files, dest, entries[i..], AsWritten) == Unzip(old(store.files), dest, entries, AsWritten)
    {
      var e := entries[i];
      assert entries[i..][1..] == entries[i + 1..];
      var resolved := ResolveAsWritten(dest, e.name);
      if resolved.Err? {
        return Some(resolved.error);
      }
      if IsDirectoryEntry(e) {
        failure := store.CreateDirectories(resolved.value);
        if failure.Some? {
          return;
        }
      } else {
        var parent := Parent(resolved.value);
        if parent.None? {
          return Some(NullParent);
        }
        failure := store.CreateDirectories(parent.value);
        if failure.Some? {
          return;
        }
        failure := store.Copy(resolved.value, e.content);
        if failure.Some? {
          return;
        }
      }
      i := i + 1;
    }
    failure := None;
  }

  /** Archive order: the entries of a longer archive are extracted after those of its front part. */
  lemma {:induction false} UnzipConcat(fs: FileSystem, dest: Path, a: seq<Entry>, b: seq<Entry>, guard: Guard)
    ensures Unzip(fs, dest, a + b, guard) ==
      if Unzip(fs, dest, a, guard).failure.Some? then Unzip(fs, dest, a, guard)
      else Unzip(Unzip(fs, dest, a, guard).fs, dest, b, guard)
    decreases |a|
  {
    if a != [] {
      assert (a + b)[0] == a[0] && (a + b)[1..] == a[1..] + b;
      var r := Extract(fs, dest, a[0], guard);
      if r.failure.None? {
        UnzipConcat(r.fs, dest, a[1..], b, guard);
      }
    } else {
      assert a + b == b;
    }
  }

  /**
   * A rejected entry stops the extraction with "Bad zip entry" and writes nothing; what the
   * entries before it wrote stays written.
   */
  lemma RejectedEntryStops(fs: FileSystem, dest: Path, before: seq<Entry>, bad: Entry, after: seq<Entry>, guard: Guard)
    requires Unzip(fs, dest, before, guard).failure.None?
    requires Resolved(guard, dest, bad.name).Err?
    ensures Unzip(fs, dest, before + [bad] + after, guard) == Run(Some(BadEntry(bad.name)), Unzip(fs, dest, before, guard).fs)
  {
    UnzipConcat(fs, dest, before, [bad] + after, guard);
    assert before + [bad] + after == before + ([bad] + after);
  }

  /** `k` was written: it is new, or holds another node than before. */
  predicate Changed(fs0: FileSystem, fs1: FileSystem, k: Path) {
    k in fs1 && (k !in fs0 || fs1[k] != fs0[k])
  }

  /**
   * What a run under a sound guard may do: remove no path, turn no existing path into a
   * directory, write only on `dest`'s line of descent, and write files only inside `dest`.
   */
  predicate Contained(fs0: FileSystem, fs1: FileSystem, dest: Path) {
    fs0.Keys <= fs1.Keys
    && forall k | k in fs1 :: Changed(fs0, fs1, k) ==>
      Comparable(k, dest) && (fs1[k].RegularFile? ==> Inside(k, dest)) && (fs1[k].Directory? ==> k !in fs0)
  }

  lemma ContainedTrans(fs0: FileSystem, fs1: FileSystem, fs2: FileSystem, dest: Path)
    requires Contained(fs0, fs1, dest) && Contained(fs1, fs2, dest)
    ensures Contained(fs0, fs2, dest)
  {
    forall k | k in fs2 && Changed(fs0, fs2, k)
      ensures Comparable(k, dest) && (fs2[k].RegularFile? ==> Inside(k, dest)) && (fs2[k].Directory? ==> k !in fs0)
    {
      if !Changed(fs1, fs2, k) {
        assert Changed(fs0, fs1, k);
      }
    }
  }

  /** What a guard accepts normalises inside the destination, when the guard is sound for it. */
  lemma ResolvedInside(guard: Guard, dest: Path, name: string)
    requires SoundFor(guard, dest) && Resolved(guard, dest, name).Ok?
    ensures Inside(Normalize(Resolved(guard, dest, name).value), dest)
  {
    if guard.Intended? {
      var p := Resolved(guard, dest, name).value;
      NormalFixpoint(p.absolute, p.names);
    }
  }

  /** The walk of a normal path on `dest`'s line passes only prefixes of it, all on that line. */
  lemma NormalWalkOnLine(fs0: FileSystem, fs1: FileSystem, n: Path, dest: Path)
    requires IsNormal(n) && Comparable(n, dest) && GrownOnWalk(fs0, fs1, n, 0)
    ensures Contained(fs0, fs1, dest)
  {
    forall k | k in fs1 && Changed(fs0, fs1, k)
      ensures Comparable(k, dest)
    {
      var j :| 0 <= j <= |n.names| && k == Prefix(n, j);
      assert IsNormal(Path(n.absolute, n.names[..j]));
      NormalFixpoint(n.absolute, n.names[..j]);
      ComparablePrefix(n, dest, j);
    }
  }

  /** Making a directory whose normal form is on `dest`'s line writes only on that line. */
  lemma MadeOnLine(fs: FileSystem, q: Path, dest: Path)
    requires Comparable(Normalize(q), dest)
    ensures Contained(fs, DirectoryMade(fs, q).fs, dest)
  {
    NormalizeIdempotent(q);
    NormalWalkOnLine(fs, DirectoryMade(fs, q).fs, Normalize(q), dest);
  }

  /** The normal form of the parent of a path that normalises inside `dest` is on `dest`'s line. */
  lemma ParentOnLine(dest: Path, p: Path, q: Path)
    requires Inside(Normalize(p), dest) && Parent(p) == Some(q)
    ensures Comparable(Normalize(q), dest)
  {
    var last := p.names[|p.names| - 1];
    assert Path(q.absolute, q.names + [last]) == p;
    ParentComparable(dest, q, last);
  }

  /** Copying to a path that normalises inside `dest` writes on `dest`'s line. */
  lemma CopyContained(fs: FileSystem, p: Path, content: seq<bv8>, dest: Path)
    requires Inside(Normalize(p), dest) && FileCopied(fs, p, content).Ok?
    ensures Contained(fs, FileCopied(fs, p, content).value, dest)
  {
    var n := Normalize(p);
    assert Comparable(n, dest) by {
      if dest != EmptyPath {
        assert IsNamePrefix(dest.names, n.names);
      }
    }
  }

  /** A file path that normalises inside `dest`: its parents and the file are written on `dest`'s line. */
  lemma FileEntryContained(fs: FileSystem, dest: Path, p: Path, q: Path, content: seq<bv8>)
    requires Inside(Normalize(p), dest) && Parent(p) == Some(q)
    ensures Contained(fs, FileExtracted(fs, p, q, content).fs, dest)
  {
    ParentOnLine(dest, p, q);
    var made := DirectoryMade(fs, q);
    MadeOnLine(fs, q, dest);
    if made.failure.None? && FileCopied(made.fs, p, content).Ok? {
      CopyContained(made.fs, p, content, dest);
      ContainedTrans(fs, made.fs, FileCopied(made.fs, p, content).value, dest);
    }
  }

  /** One entry under a sound guard writes only on the destination's line, and files only inside it. */
  lemma ExtractContained(fs: FileSystem, dest: Path, e: Entry, guard: Guard)
    requires SoundFor(guard, dest)
    ensures Contained(fs, Extract(fs, dest, e, guard).fs, dest)
  {
    match Resolved(guard, dest, e.name)
    case Err(_) =>
    case Ok(p) =>
      ResolvedInside(guard, dest, e.name);
      if IsDirectoryEntry(e) {
        assert Comparable(Normalize(p), dest) by {
          if dest != EmptyPath {
            assert IsNamePrefix(dest.names, Normalize(p).names);
          }
        }
        MadeOnLine(fs, p, dest);
      } else if Parent(p).Some? {
        FileEntryContained(fs, dest, p, Parent(p).value, e.content);
      }
  }

  /**
   * Under a sound guard no write of a whole extraction leaves the destination's line, no
   * existing path becomes a directory and every file written lies inside the destination,
   * whatever the archive holds: with the intended guard for every destination, with the
   * guard as written for every well-based one.
   */
  lemma {:induction false} UnzipContained(fs: FileSystem, dest: Path, es: seq<Entry>, guard: Guard)
    requires SoundFor(guard, dest)
    ensures Contained(fs, Unzip(fs, dest, es, guard).fs, dest)
    decreases |es|
  {
    if es != [] {
      var r := Extract(fs, dest, es[0], guard);
      ExtractContained(fs, dest, es[0], guard);
      if r.failure.None? {
        UnzipContained(r.fs, dest, es[1..], guard);
        ContainedTrans(fs, r.fs, Unzip(r.fs, dest, es[1..], guard).fs, dest);
      }
    }
  }

  /** An archive of one entry is that entry's extraction. */
  lemma UnzipOne(fs: FileSystem, dest: Path, e: Entry, guard: Guard)
    ensures Unzip(fs, dest, [e], guard) == Extract(fs, dest, e, guard)
  {
    assert [e][1..] == [];
  }

  /** A file entry the guard accepts: its parent is made, then the file is copied. */
  lemma FileEntryStep(fs: FileSystem, dest: Path, e: Entry, guard: Guard, p: Path, q: Path)
    requires Resolved(guard, dest, e.name) == Ok(p) && !IsDirectoryEntry(e) && Parent(p) == Some(q)
    ensures Extract(fs, dest, e, guard) == FileExtracted(fs, p, q, e.content)
  {
  }

  /** Making a normal path that is already a directory all the way down changes nothing. */
  lemma ExistingDirectoryMade(fs: FileSystem, d: Path)
    requires IsNormal(d) && IsDirectoryOnDisk(fs, d)
    ensures DirectoryMade(fs, d) == Run(None, fs)
  {
    DirectoryCheckPasses(fs, d);
    NormalCreated(fs, d);
    WalkThroughDirectories(fs, d, 0);
  }

  /** Making a directory above the working directory changes nothing: those always exist. */
  lemma UpwardMade(fs: FileSystem, q: Path)
    requires !q.absolute && forall i :: 0 <= i < |q.names| ==> q.names[i] == ".."
    ensures DirectoryMade(fs, q) == Run(None, fs)
  {
    assert IsNormal(q);
    forall j | 0 <= j <= |q.names|
      ensures DirectoryAt(fs, Prefix(q, j))
    {
      NormalPrefix(q, j);
    }
    ExistingDirectoryMade(fs, q);
  }

  /** A new file at a normal path, once its parent is made with no change, is simply added. */
  lemma FileIntoMadeParent(fs: FileSystem, p: Path, q: Path, content: seq<bv8>)
    requires IsNormal(p) && p.names != [] && p.names[|p.names| - 1] != ".." && p !in fs
    requires DirectoryMade(fs, q) == Run(None, fs)
    ensures FileExtracted(fs, p, q, content) == Run(None, fs[p := RegularFile(content)])
  {
    NormalFixpoint(p.absolute, p.names);
    assert Normalize(p) == p;
  }

  /** Writing "../../evil", where it does not exist yet, needs no new directory. */
  lemma UpwardFileWritten(fs: FileSystem, content: seq<bv8>)
    requires Path(false, ["..", "..", "evil"]) !in fs
    ensures var r := FileExtracted(fs, Path(false, ["..", "..", "evil"]), Path(false, ["..", ".."]), content);
      r.failure.None? && FileHolds(r.fs, Path(false, ["..", "..", "evil"]), content)
  {
    var p := Path(false, ["..", "..", "evil"]);
    UpwardMade(fs, Path(false, ["..", ".."]));
    assert IsNormal(p);
    FileIntoMadeParent(fs, p, Path(false, ["..", ".."]), content);
  }

  /**
   * The guard as written lets an archive write outside a ".." destination: in any file
   * system where "../../evil" does not exist, the entry "../evil" becomes the file
   * "../../evil", which is not inside ".." (see `DotDotDestinationEscapes`).
   */
  lemma AsWrittenWritesOutside(fs: FileSystem, content: seq<bv8>)
    requires Path(false, ["..", "..", "evil"]) !in fs
    ensures var r := Unzip(fs, Path(false, [".."]), [Entry("../evil", content)], AsWritten);
      r.failure.None? && FileHolds(r.fs, Path(false, ["..", "..", "evil"]), content)
  {
    UpwardEntryStep(fs, content);
    UpwardFileWritten(fs, content);
    UnzipOne(fs, Path(false, [".."]), Entry("../evil", content), AsWritten);
  }

  /** The entry "../evil" under "..": the guard as written accepts it as the file "../../evil". */
  lemma UpwardEntryStep(fs: FileSystem, content: seq<bv8>)
    ensures Extract(fs, Path(false, [".."]), Entry("../evil", content), AsWritten)
      == FileExtracted(fs, Path(false, ["..", "..", "evil"]), Path(false, ["..", ".."]), content)
  {
    DotDotDestinationEscapes();
    var p := Path(false, ["..", "..", "evil"]);
    var q := Path(false, ["..", ".."]);
    assert p.names[..|p.names| - 1] == q.names;
    assert Parent(p) == Some(q);
    FileEntryStep(fs, Path(false, [".."]), Entry("../evil", content), AsWritten, p, q);
  }

  /** The intended guard stops the same archive at its entry, before anything is written. */
  lemma IntendedRefusesEscape(fs: FileSystem, content: seq<bv8>)
    ensures Unzip(fs, Path(false, [".."]), [Entry("../evil", content)], Intended)
      == Run(Some(BadEntry("../evil")), fs)
  {
    DotDotDestinationEscapes();
    UnzipOne(fs, Path(false, [".."]), Entry("../evil", content), Intended);
  }

  /** A real name followed by ".." cancels out. */
  lemma CancelPair(absolute: bool, s: seq<PathName>, x: PathName)
    requires x != "." && x != ".."
    ensures NormNames(absolute, s + [x, ".."]) == NormNames(absolute, s)
  {
    var sx := s + [x];
    NormSnoc(absolute, s, x);
    NormSnoc(absolute, sx, "..");
    assert sx + [".."] == s + [x, ".."];
    var n := NormNames(absolute, s);
    assert (n + [x])[..|n|] == n;
  }

  /** The entry name "a/../f". */
  function DotDotName(a: PathName, f: PathName): string {
    a + "/../" + f
  }

  /** "/x/a/../f", the name "a/../f" joined to "/x". */
  function DotDotPath(x: PathName, a: PathName, f: PathName): Path {
    Path(true, [x, a, "..", f])
  }

  /** "/x/a/..", the parent of `DotDotPath(x, a, f)`. */
  function DotDotParent(x: PathName, a: PathName): Path {
    Path(true, [x, a, ".."])
  }

  /** The names of "a/../f", which ends with `f`'s last character. */
  lemma DotDotNameNames(a: PathName, f: PathName)
    ensures DotDotName(a, f) == JoinNames([a, "..", f])
    ensures DotDotName(a, f)[|DotDotName(a, f)| - 1] == f[|f| - 1]
  {
    var uf: seq<PathName> := ["..", f];
    var tail: seq<PathName> := [a, "..", f];
    assert JoinNames(uf) == "../" + f by {
      assert uf[1..] == [f];
    }
    assert tail[1..] == uf;
  }

  /** "/x/a/../f" normalises to "/x/f". */
  lemma DotDotNormal(x: PathName, a: PathName, f: PathName)
    requires x != "." && x != ".." && a != "." && a != ".." && f != "." && f != ".."
    ensures Normalize(DotDotPath(x, a, f)) == Path(true, [x, f])
  {
    var xs: seq<PathName> := [x];
    var xau: seq<PathName> := [x, a, ".."];
    var none: seq<PathName> := [];
    NormSnoc(true, none, x);
    assert none + [x] == xs;
    CancelPair(true, xs, a);
    assert xs + [a, ".."] == xau;
    NormSnoc(true, xau, f);
    assert xau + [f] == [x, a, "..", f];
  }

  /**
   * Under "/x" the guard as written accepts "a/../f" as the raw path "/x/a/../f", and the
   * intended guard as its normal form "/x/f".
   */
  lemma DotDotResolved(x: PathName, a: PathName, f: PathName)
    requires x != "." && x != ".." && a != "." && a != ".." && f != "." && f != ".."
    ensures ResolveAsWritten(Path(true, [x]), DotDotName(a, f)) == Ok(DotDotPath(x, a, f))
    ensures ResolveZipEntryPath(Path(true, [x]), DotDotName(a, f)) == Ok(Path(true, [x, f]))
  {
    var dest := Path(true, [x]);
    var name := DotDotName(a, f);
    var tail: seq<PathName> := [a, "..", f];
    DotDotNameNames(a, f);
    assert f[|f| - 1] in f;
    JoinedNames(dest, tail, name);
    var p := Path(true, [x, a, "..", f]);
    assert dest.names + tail == p.names;
    DotDotNormal(x, a, f);
    assert Normalize(p).names[..1] == dest.names;
    assert Inside(Path(true, [x, f]), dest);
  }

  /** Under "/x" the entry "a/../f" is a file entry whose parent, as written, is "/x/a/..". */
  lemma DotDotEntryStep(fs: FileSystem, x: PathName, a: PathName, f: PathName, content: seq<bv8>)
    requires x != "." && x != ".." && a != "." && a != ".." && f != "." && f != ".."
    ensures Extract(fs, Path(true, [x]), Entry(DotDotName(a, f), content), AsWritten)
      == FileExtracted(fs, DotDotPath(x, a, f), DotDotParent(x, a), content)
  {
    DotDotResolved(x, a, f);
    DotDotNameNames(a, f);
    var p := DotDotPath(x, a, f);
    assert p.names[..|p.names| - 1] == DotDotParent(x, a).names;
    FileEntryStep(fs, Path(true, [x]), Entry(DotDotName(a, f), content), AsWritten, p, DotDotParent(x, a));
  }

  /** "/x/a/.." normalises to "/x", and its first two names lead to "/x" and "/x/a". */
  lemma DotDotParentWalk(x: PathName, a: PathName)
    requires x != "." && x != ".." && a != "." && a != ".."
    ensures Normalize(DotDotParent(x, a)) == Path(true, [x])
    ensures Prefix(DotDotParent(x, a), 1) == Path(true, [x])
    ensures Prefix(DotDotParent(x, a), 2) == Path(true, [x, a])
  {
    var q := DotDotParent(x, a);
    var none: seq<PathName> := [];
    NormSnoc(true, none, x);
    assert none + [x] == [x];
    NormSnoc(true, [x], a);
    assert [x] + [a] == [x, a];
    CancelPair(true, [x], a);
    assert [x] + [a, ".."] == q.names;
    assert q.names[..1] == [x] && q.names[..2] == [x, a];
  }

  /**
   * A file before a ".." stops `createDirectories`: under "/x", where "a" is a regular file,
   * the entry "a/../f" normalises to "/x/f" and passes the guard as written
   * (`DotDotEntryStep`), but the search for where to start making its parent "/x/a/..",
   * whose normal form "/x" is a directory, meets the file "a" and fails with nothing written.
   */
  lemma FileBeforeDotDotStops(fs: FileSystem, x: PathName, a: PathName, other: seq<bv8>)
    requires x != "." && x != ".." && a != "." && a != ".."
    requires Path(true, [x]) in fs && fs[Path(true, [x])] == Directory
    requires Path(true, [x, a]) in fs && fs[Path(true, [x, a])] == RegularFile(other)
    ensures DirectoryAt(fs, Normalize(DotDotParent(x, a)))
    ensures DirectoryMade(fs, DotDotParent(x, a)) == Run(Some(NotADirectory(DotDotParent(x, a))), fs)
  {
    var q := DotDotParent(x, a);
    DotDotParentWalk(x, a);
    assert AnchorFrom(fs, q, 2) == None;
    assert AnchorFrom(fs, q, 1) == None;
  }

  /**
   * The `isDirectory` check can fail: under "/x", where "a" does not exist, the parent
   * "/x/a/.." of the entry "a/../f" needs no new directory, since its normal form "/x"
   * exists, but the system cannot resolve it through the missing "a", so the extraction
   * stops with "Could not create directory" and nothing written.
   */
  lemma DotDotThroughMissing(fs: FileSystem, x: PathName, a: PathName, f: PathName, content: seq<bv8>)
    requires x != "." && x != ".." && a != "." && a != ".." && f != "." && f != ".."
    requires Path(true, [x]) in fs && fs[Path(true, [x])] == Directory
    requires Path(true, [x, a]) !in fs
    ensures Extract(fs, Path(true, [x]), Entry(DotDotName(a, f), content), AsWritten)
      == Run(Some(NotCreated(DotDotParent(x, a))), fs)
  {
    var q := DotDotParent(x, a);
    DotDotEntryStep(fs, x, a, f, content);
    DotDotParentWalk(x, a);
    assert AnchorFrom(fs, q, 2) == Some(1);
    assert AnchorFrom(fs, q, 1) == Some(1);
    var n := Path(true, [x]);
    assert Prefix(q, 1).names == [x];
    assert CommonLength([x], [x]) == 1;
    assert CreatedFrom(fs, n, 2) == Run(None, fs);
    assert WalkedDown(fs, q, 1) == Run(None, fs);
    assert !DirectoryAt(fs, Prefix(q, 2));
  }

  /** Writing a new file "/x/f" into the directory "/x" needs no new directory. */
  lemma FileBesideDirectory(fs: FileSystem, x: PathName, f: PathName, content: seq<bv8>)
    requires x != "." && x != ".." && f != "." && f != ".."
    requires Path(true, [x]) in fs && fs[Path(true, [x])] == Directory
    requires Path(true, [x, f]) !in fs
    ensures FileExtracted(fs, Path(true, [x, f]), Path(true, [x]), content)
      == Run(None, fs[Path(true, [x, f]) := RegularFile(content)])
  {
    var d := Path(true, [x]);
    var p := Path(true, [x, f]);
    assert IsNormal(d) && IsNormal(p);
    NormalPrefix(d, 0);
    NormalPrefix(d, 1);
    ExistingDirectoryMade(fs, d);
    FileIntoMadeParent(fs, p, d, content);
  }

  /**
   * The intended guard hands on the normal form "/x/f" of the same entry, whose parent "/x"
   * is there: the file is written whether or not "a" exists.
   */
  lemma IntendedDotDotWrites(fs: FileSystem, x: PathName, a: PathName, f: PathName, content: seq<bv8>)
    requires x != "." && x != ".." && a != "." && a != ".." && f != "." && f != ".."
    requires Path(true, [x]) in fs && fs[Path(true, [x])] == Directory
    requires Path(true, [x, f]) !in fs
    ensures Extract(fs, Path(true, [x]), Entry(DotDotName(a, f), content), Intended)
      == Run(None, fs[Path(true, [x, f]) := RegularFile(content)])
  {
    var dest := Path(true, [x]);
    var p := Path(true, [x, f]);
    DotDotResolved(x, a, f);
    assert p.names[..|p.names| - 1] == dest.names;
    FileEntryStep(fs, dest, Entry(DotDotName(a, f), content), Intended, p, dest);
    FileBesideDirectory(fs, x, f, content);
  }

  /**
   * The entry "." under a directory "/x" passes the guard as written as "/x/.", whose parent
   * is "/x". Making "/x" changes nothing, but the copy to "/x/." fails: the destination is not
   * turned into a file.
   */
  lemma DotEntryRefused(fs: FileSystem, x: PathName, content: seq<bv8>)
    requires x != "." && x != ".."
    requires Path(true, [x]) in fs && fs[Path(true, [x])] == Directory
    ensures Unzip(fs, Path(true, [x]), [Entry(".", content)], AsWritten)
      == Run(Some(NotAFile(Path(true, [x, "."]))), fs)
  {
    var dest := Path(true, [x]);
    var p := Path(true, [x, "."]);
    JoinedNames(dest, ["."], ".");
    assert dest.names + ["."] == p.names;
    NormSnoc(true, [x], ".");
    assert NormNames(true, [x]) == [x] by { NormalFixpoint(true, [x]); }
    assert ResolveAsWritten(dest, ".") == Ok(p);
    assert p.names[..|p.names| - 1] == dest.names;
    FileEntryStep(fs, dest, Entry(".", content), AsWritten, p, dest);
    NormalPrefix(dest, 0);
    NormalPrefix(dest, 1);
    ExistingDirectoryMade(fs, dest);
    UnzipOne(fs, dest, Entry(".", content), AsWritten);
  }

  /**
   * The entry ".." under the destination ".." passes the guard as written as "../..", a
   * directory that always exists: the copy fails and nothing is written.
   */
  lemma UpwardEntryRefused(fs: FileSystem, content: seq<bv8>)
    ensures Unzip(fs, Path(false, [".."]), [Entry("..", content)], AsWritten)
      == Run(Some(NotAFile(Path(false, ["..", ".."]))), fs)
  {
    var dest := Path(false, [".."]);
    var p := Path(false, ["..", ".."]);
    UpwardGuardAccepts();
    assert p.names[..|p.names| - 1] == dest.names;
    FileEntryStep(fs, dest, Entry("..", content), AsWritten, p, dest);
    UpwardFileRefused(fs, content);
    UnzipOne(fs, dest, Entry("..", content), AsWritten);
  }

  /** A file "../.." cannot be written; its parent ".." is there already. */
  lemma UpwardFileRefused(fs: FileSystem, content: seq<bv8>)
    ensures FileExtracted(fs, Path(false, ["..", ".."]), Path(false, [".."]), content)
      == Run(Some(NotAFile(Path(false, ["..", ".."]))), fs)
  {
    var p := Path(false, ["..", ".."]);
    UpwardMade(fs, Path(false, [".."]));
    assert DotLast(p);
    assert FileCopied(fs, p, content) == Err(NotAFile(p));
  }

  /** The guard as written accepts ".." under "..", as "../..". */
  lemma UpwardGuardAccepts()
    ensures ResolveAsWritten(Path(false, [".."]), "..") == Ok(Path(false, ["..", ".."]))
  {
    var dest := Path(false, [".."]);
    var p := Path(false, ["..", ".."]);
    JoinedNames(dest, [".."], "..");
    assert dest.names + [".."] == p.names;
    assert IsNormal(p);
    NormalFixpoint(false, p.names);
  }
}
