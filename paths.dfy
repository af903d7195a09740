/**
 * The part of `java.nio.file.Path` (the Unix implementation) that the plugin relies on: a path
 * is a root flag and a sequence of non-empty name elements without '/'.
 */
module Paths {

  predicate ValidName(s: string) {
    |s| > 0 && '/' !in s
  }

  /** One name element of a path. */
  type PathName = s: string | ValidName(s) witness "a"

  /** A Unix path: `absolute` when it starts at the root, then its name elements. */
  datatype Path = Path(absolute: bool, names: seq<PathName>)

  /** The empty path `Path.of("")`. */
  const EmptyPath: Path := Path(false, [])

  /** The name `cur` collected so far, as zero or one name elements. */
  function Flush(cur: string): (r: seq<PathName>)
    requires '/' !in cur
    ensures |r| <= 1
  {
    if cur == [] then [] else [cur]
  }

  /** Splits `s` at every '/', `cur` being the name read before `s`; empty pieces vanish. */
  function NamesAcc(s: string, cur: string): seq<PathName>
    requires '/' !in cur
    decreases |s|
  {
    if s == [] then Flush(cur)
    else if s[0] == '/' then Flush(cur) + NamesAcc(s[1..], "")
    else NamesAcc(s[1..], cur + [s[0]])
  }

  /** The name elements of a path string: the non-empty pieces between slashes. */
  function Names(s: string): seq<PathName> {
    NamesAcc(s, "")
  }

  /** `Path.of(s)`: redundant and trailing slashes are dropped. */
  function Parse(s: string): (p: Path)
    ensures p.absolute <==> |s| > 0 && s[0] == '/'
  {
    Path(|s| > 0 && s[0] == '/', Names(s))
  }

  function JoinNames(ns: seq<PathName>): string {
    if ns == [] then ""
    else if |ns| == 1 then ns[0]
    else ns[0] + "/" + JoinNames(ns[1..])
  }

  /** `p.toString()` */
  function Render(p: Path): string {
    (if p.absolute then "/" else "") + JoinNames(p.names)
  }

  lemma {:induction false} NamesAccConcat(a: string, b: string, cur: string)
    requires '/' !in cur
    ensures NamesAcc(a + "/" + b, cur) == NamesAcc(a, cur) + NamesAcc(b, "")
    decreases |a|
  {
    var s := a + "/" + b;
    if a == [] {
      assert s[0] == '/' && s[1..] == b;
    } else {
      assert s[0] == a[0] && s[1..] == a[1..] + "/" + b;
      if a[0] == '/' {
        NamesAccConcat(a[1..], b, "");
      } else {
        NamesAccConcat(a[1..], b, cur + [a[0]]);
      }
    }
  }

  /** Splitting at a slash distributes over the pieces on either side of it. */
  lemma NamesConcat(a: string, b: string)
    ensures Names(a + "/" + b) == Names(a) + Names(b)
  {
    NamesAccConcat(a, b, "");
  }

  lemma {:induction false} NamesAccWord(n: string, cur: string)
    requires '/' !in n && '/' !in cur && cur + n != []
    ensures NamesAcc(n, cur) == [cur + n]
    decreases |n|
  {
    if n == [] {
      assert cur + n == cur;
    } else {
      assert n[0] in n;
      assert '/' !in n[1..] by {
        forall i | 0 <= i < |n[1..]| ensures n[1..][i] != '/' { assert n[1..][i] == n[i + 1]; }
      }
      NamesAccWord(n[1..], cur + [n[0]]);
      assert cur + [n[0]] + n[1..] == cur + n;
    }
  }

  lemma NamesOfName(n: PathName)
    ensures Names(n) == [n]
  {
    NamesAccWord(n, "");
    assert "" + n == n;
  }

  lemma {:induction false} NamesOfJoin(ns: seq<PathName>)
    ensures Names(JoinNames(ns)) == ns
    ensures |ns| > 0 ==> JoinNames(ns)[0] == ns[0][0]
  {
    if |ns| == 1 {
      NamesOfName(ns[0]);
    } else if |ns| > 1 {
      NamesOfJoin(ns[1..]);
      NamesConcat(ns[0], JoinNames(ns[1..]));
      NamesOfName(ns[0]);
    }
  }

  /** `Path.of(p.toString())` is `p` again: the string form loses nothing. */
  lemma ParseRender(p: Path)
    ensures Parse(Render(p)) == p
  {
    NamesOfJoin(p.names);
    var j := JoinNames(p.names);
    if p.absolute {
      NamesConcat("", j);
      assert "" + "/" + j == Render(p);
    } else {
      assert Render(p) == j;
      if p.names != [] {
        assert ValidName(p.names[0]) && p.names[0][0] in p.names[0];
      }
    }
  }

  lemma {:induction false} JoinNamesSnoc(ns: seq<PathName>, n: PathName)
    ensures JoinNames(ns + [n]) == if ns == [] then n else JoinNames(ns) + "/" + n
  {
    if |ns| == 1 {
      assert ns + [n] == [ns[0], n];
    } else if |ns| > 1 {
      assert (ns + [n])[1..] == ns[1..] + [n];
      JoinNamesSnoc(ns[1..], n);
    }
  }

  /** The string form of a path with a last name element ends with that name. */
  lemma RenderEndsWithLast(absolute: bool, ns: seq<PathName>, n: PathName)
    ensures var r := Render(Path(absolute, ns + [n]));
      |n| <= |r| && r[|r| - |n|..] == n
  {
    JoinNamesSnoc(ns, n);
    var prefix := if absolute then "/" else "";
    var j := JoinNames(ns + [n]);
    var r := prefix + j;
    assert r[|r| - |j|..] == j;
    assert j[|j| - |n|..] == n;
    assert r[|r| - |n|..] == j[|j| - |n|..];
  }

  /** `base.resolve(other)` */
  function Resolve(base: Path, other: Path): (r: Path)
    ensures other.absolute ==> r == other
    ensures !other.absolute ==> r.absolute == base.absolute && r.names == base.names + other.names
  {
    if other.absolute then other else Path(base.absolute, base.names + other.names)
  }

  /** `Path.of(first, more)`: the non-empty strings joined with '/', then parsed. */
  function OfTwo(first: string, more: string): Path {
    Parse(if more == "" then first else if first == "" then more else first + "/" + more)
  }

  /** `Path.of(dir.toString(), name)` appends the name elements of `name` to `dir`. */
  lemma OfTwoRender(dir: Path, name: string)
    requires dir != EmptyPath
    ensures OfTwo(Render(dir), name) == Path(dir.absolute, dir.names + Names(name))
  {
    ParseRender(dir);
    var r := Render(dir);
    if dir.absolute {
      assert r[0] == '/';
    } else {
      NamesOfJoin(dir.names);
      assert r == JoinNames(dir.names);
    }
    if name != "" {
      NamesConcat(r, name);
    } else {
      assert dir.names + Names(name) == dir.names;
    }
  }

  /** One name element of `normalize()`: "." is dropped, ".." cancels the previous name. */
  function Step(absolute: bool, stack: seq<PathName>, name: PathName): seq<PathName> {
    if name == "." then stack
    else if name == ".." then
      if |stack| > 0 && stack[|stack| - 1] != ".." then stack[..|stack| - 1]
      else if absolute then stack
      else stack + [".."]
    else stack + [name]
  }

  function NormNames(absolute: bool, names: seq<PathName>): seq<PathName>
    decreases |names|
  {
    if names == [] then []
    else Step(absolute, NormNames(absolute, names[..|names| - 1]), names[|names| - 1])
  }

  /**
   * `normalize()`: removes "." elements and each ".." with the name before it; a ".." at the
   * start of an absolute path is dropped, at the start of a relative one it is kept.
   */
  function Normalize(p: Path): (r: Path)
    ensures r.absolute == p.absolute
  {
    Path(p.absolute, NormNames(p.absolute, p.names))
  }

  /** The paths `normalize()` can return. */
  predicate IsNormal(p: Path) {
    forall i :: 0 <= i < |p.names| ==>
      p.names[i] != "." && (p.names[i] == ".." ==> !p.absolute && forall j :: 0 <= j < i ==> p.names[j] == "..")
  }

  lemma {:induction false} NormNamesIsNormal(absolute: bool, names: seq<PathName>)
    ensures IsNormal(Path(absolute, NormNames(absolute, names)))
    decreases |names|
  {
    if names != [] {
      NormNamesIsNormal(absolute, names[..|names| - 1]);
      var s := NormNames(absolute, names[..|names| - 1]);
      var x := names[|names| - 1];
      if x == ".." && !(|s| > 0 && s[|s| - 1] != "..") && !absolute {
        assert forall j :: 0 <= j < |s| ==> s[j] == "..";
      }
    }
  }

  lemma {:induction false} NormalFixpoint(absolute: bool, names: seq<PathName>)
    requires IsNormal(Path(absolute, names))
    ensures NormNames(absolute, names) == names
    decreases |names|
  {
    if names != [] {
      var init := names[..|names| - 1];
      assert IsNormal(Path(absolute, init));
      NormalFixpoint(absolute, init);
    }
  }

  /** Normalising is a left fold: one more name element takes one more step. */
  lemma NormSnoc(absolute: bool, names: seq<PathName>, name: PathName)
    ensures NormNames(absolute, names + [name]) == Step(absolute, NormNames(absolute, names), name)
  {
    assert (names + [name])[..|names|] == names;
  }

  /** `normalize()` returns a normal path, and normalizing twice changes nothing more. */
  lemma NormalizeIdempotent(p: Path)
    ensures IsNormal(Normalize(p))
    ensures Normalize(Normalize(p)) == Normalize(p)
  {
    NormNamesIsNormal(p.absolute, p.names);
    NormalFixpoint(p.absolute, NormNames(p.absolute, p.names));
  }

  /** `p.startsWith(q)`: compared name by name, never character by character. */
  predicate StartsWith(p: Path, q: Path) {
    if q == EmptyPath then p == EmptyPath
    else p.absolute == q.absolute && |q.names| <= |p.names| && p.names[..|q.names|] == q.names
  }

  predicate IsNamePrefix(a: seq<PathName>, b: seq<PathName>) {
    |a| <= |b| && b[..|a|] == a
  }

  /** `p` and `q` lie on one line of descent: one is an ancestor of, or equal to, the other. */
  predicate Comparable(p: Path, q: Path) {
    p.absolute == q.absolute && (IsNamePrefix(p.names, q.names) || IsNamePrefix(q.names, p.names))
  }

  /** One normalisation step moves to the parent, stays, or moves to a child. */
  lemma StepComparable(absolute: bool, stack: seq<PathName>, name: PathName)
    ensures IsNamePrefix(stack, Step(absolute, stack, name)) || IsNamePrefix(Step(absolute, stack, name), stack)
  {
  }

  /**
   * If a normalised path lies at or under `dir`, then normalising its parent gives a path on
   * the same line of descent as `dir`: creating the parent never leaves that line.
   */
  lemma ParentComparable(dir: Path, parent: Path, name: PathName)
    requires StartsWith(Normalize(Path(parent.absolute, parent.names + [name])), dir)
    ensures Comparable(Normalize(parent), dir) || (dir == EmptyPath && Normalize(parent).absolute == dir.absolute)
  {
    var child := Path(parent.absolute, parent.names + [name]);
    assert child.names[..|child.names| - 1] == parent.names;
    var s := NormNames(parent.absolute, parent.names);
    StepComparable(parent.absolute, s, name);
    if dir == EmptyPath {
      assert !child.absolute;
    }
  }

  /** A prefix of a path on `dir`'s line of descent is on it too. */
  lemma ComparablePrefix(p: Path, dir: Path, k: nat)
    requires Comparable(p, dir) && k <= |p.names|
    ensures Comparable(Path(p.absolute, p.names[..k]), dir)
  {
    if IsNamePrefix(dir.names, p.names) && k >= |dir.names| {
      assert p.names[..k][..|dir.names|] == dir.names;
    } else if IsNamePrefix(dir.names, p.names) {
      assert dir.names[..k] == p.names[..k];
    } else {
      assert dir.names[..k] == p.names[..k];
    }
  }

  /** Appending names without ".." to a normal path only drops the "." elements among them. */
  lemma {:induction false} NormAppend(absolute: bool, dir: seq<PathName>, tail: seq<PathName>)
    requires IsNormal(Path(absolute, dir))
    requires forall i :: 0 <= i < |tail| ==> tail[i] != ".."
    ensures IsNamePrefix(dir, NormNames(absolute, dir + tail))
    ensures forall i :: |dir| <= i < |NormNames(absolute, dir + tail)| ==> NormNames(absolute, dir + tail)[i] != ".."
    decreases |tail|
  {
    if tail == [] {
      assert dir + tail == dir;
      NormalFixpoint(absolute, dir);
    } else {
      var init := tail[..|tail| - 1];
      assert (dir + tail)[..|dir + tail| - 1] == dir + init;
      NormAppend(absolute, dir, init);
    }
  }
}
