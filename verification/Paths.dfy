/** The Unix half of Go's path/filepath that the repository's two path layers are built on: a path is
    cut into segments, resolved lexically, and shown again. The laws are what those layers rely on. */
module Paths {
  import opened Wrappers
  import opened Text

  /** A lexically clean path. */
  datatype Path = Path(rooted: bool, segs: seq<string>)

  ghost predicate Segment(seg: string) {
    seg != "" && seg != "." && '/' !in seg
  }

  /** A segment that names something below its parent. */
  ghost predicate Proper(seg: string) {
    Segment(seg) && seg != ".."
  }

  /** The absolute clean paths. */
  ghost predicate CleanAbsolute(p: Path) {
    p.rooted && forall s | s in p.segs :: Proper(s)
  }

  /** The clean paths, relative ones included: those may begin with "..". */
  ghost predicate CleanPath(p: Path) {
    forall s | s in p.segs :: Segment(s) && (p.rooted ==> s != "..")
  }

  predicate IsAbs(s: string) {
    s != "" && s[0] == '/'
  }

  // ---------------------------------------------------------------- filepath.Clean

  /** Consume segments left to right: skip "" and ".", let ".." drop the last segment, stop at the root. */
  function Resolve(rooted: bool, acc: seq<string>, parts: seq<string>): seq<string>
    decreases |parts|
  {
    if parts == [] then acc
    else
      var part, rest := parts[0], parts[1..];
      if part == "" || part == "." then Resolve(rooted, acc, rest)
      else if part == ".." then
        if acc != [] && acc[|acc| - 1] != ".." then Resolve(rooted, acc[..|acc| - 1], rest)
        else if rooted then Resolve(rooted, acc, rest)
        else Resolve(rooted, acc + [".."], rest)
      else Resolve(rooted, acc + [part], rest)
  }

  function Parse(s: string): Path {
    Path(IsAbs(s), Resolve(IsAbs(s), [], Split(s, '/')))
  }

  function Show(p: Path): string {
    if p.rooted then "/" + Join(p.segs, "/")
    else if p.segs == [] then "."
    else Join(p.segs, "/")
  }

  function Clean(s: string): string {
    Show(Parse(s))
  }

  /** filepath.Join(a, b). */
  function JoinPath(a: string, b: string): string {
    if a == "" && b == "" then ""
    else if a == "" then Clean(b)
    else if b == "" then Clean(a)
    else Clean(a + "/" + b)
  }

  /** filepath.Abs, with the working directory it consults. */
  function Abs(cwd: string, s: string): string {
    if IsAbs(s) then Clean(s) else JoinPath(cwd, s)
  }

  // ---------------------------------------------------------------- Laws of Clean

  lemma {:induction false} ResolveIsProper(acc: seq<string>, parts: seq<string>)
    requires forall s | s in acc :: Proper(s)
    requires forall s | s in parts :: '/' !in s
    ensures forall s | s in Resolve(true, acc, parts) :: Proper(s)
    decreases |parts|
  {
    if parts != [] {
      var part, rest := parts[0], parts[1..];
      assert part in parts;
      if part == "" || part == "." {
        ResolveIsProper(acc, rest);
      } else if part == ".." {
        if acc != [] && acc[|acc| - 1] != ".." {
          ResolveIsProper(acc[..|acc| - 1], rest);
        } else {
          ResolveIsProper(acc, rest);
        }
      } else {
        ResolveIsProper(acc + [part], rest);
      }
    }
  }

  lemma ParseIsClean(s: string)
    requires IsAbs(s)
    ensures CleanAbsolute(Parse(s))
  {
    SplitHasNoSeparator(s, '/');
    ResolveIsProper([], Split(s, '/'));
  }

  lemma {:induction false} ResolveIsSegments(acc: seq<string>, parts: seq<string>)
    requires forall s | s in acc :: Segment(s)
    requires forall s | s in parts :: '/' !in s
    ensures forall s | s in Resolve(false, acc, parts) :: Segment(s)
    decreases |parts|
  {
    if parts != [] {
      var part, rest := parts[0], parts[1..];
      assert part in parts;
      if part == "" || part == "." {
        ResolveIsSegments(acc, rest);
      } else if part == ".." && acc != [] && acc[|acc| - 1] != ".." {
        ResolveIsSegments(acc[..|acc| - 1], rest);
      } else {
        ResolveIsSegments(acc + [part], rest);
      }
    }
  }

  lemma ParseIsCleanPath(s: string)
    ensures CleanPath(Parse(s))
  {
    if IsAbs(s) {
      ParseIsClean(s);
    } else {
      SplitHasNoSeparator(s, '/');
      ResolveIsSegments([], Split(s, '/'));
    }
  }

  lemma {:induction false} ResolveAppend(rooted: bool, acc: seq<string>, a: seq<string>, b: seq<string>)
    ensures Resolve(rooted, acc, a + b) == Resolve(rooted, Resolve(rooted, acc, a), b)
    decreases |a|
  {
    if a == [] {
      assert a + b == b;
    } else {
      assert (a + b)[1..] == a[1..] + b;
      var part := a[0];
      if part == "" || part == "." {
        ResolveAppend(rooted, acc, a[1..], b);
      } else if part == ".." {
        if acc != [] && acc[|acc| - 1] != ".." {
          ResolveAppend(rooted, acc[..|acc| - 1], a[1..], b);
        } else if rooted {
          ResolveAppend(rooted, acc, a[1..], b);
        } else {
          ResolveAppend(rooted, acc + [".."], a[1..], b);
        }
      } else {
        ResolveAppend(rooted, acc + [part], a[1..], b);
      }
    }
  }

  /** Proper segments are taken as they come. */
  lemma {:induction false} ResolveProper(rooted: bool, acc: seq<string>, parts: seq<string>)
    requires forall s | s in parts :: Proper(s)
    ensures Resolve(rooted, acc, parts) == acc + parts
    decreases |parts|
  {
    if parts == [] {
      assert acc + parts == acc;
    } else {
      assert parts[0] in parts;
      ResolveProper(rooted, acc + [parts[0]], parts[1..]);
      assert acc + [parts[0]] + parts[1..] == acc + parts;
    }
  }

  lemma SplitShow(p: Path)
    requires CleanAbsolute(p)
    ensures Split(Show(p), '/') == [""] + (if p.segs == [] then [""] else p.segs)
  {
    SplitAppend("", '/', Join(p.segs, "/"));
    assert "" + ['/'] + Join(p.segs, "/") == Show(p);
    if p.segs != [] {
      SplitJoin(p.segs, '/');
    }
  }

  lemma ResolveSkipsEmpty(rooted: bool, acc: seq<string>, rest: seq<string>)
    ensures Resolve(rooted, acc, [""] + rest) == Resolve(rooted, acc, rest)
  {
    assert ([""] + rest)[1..] == rest;
  }

  /** Showing a clean absolute path and parsing it again gives it back. */
  lemma ParseShow(p: Path)
    requires CleanAbsolute(p)
    ensures IsAbs(Show(p)) && Parse(Show(p)) == p
  {
    SplitShow(p);
    ResolveSkipsEmpty(true, [], if p.segs == [] then [""] else p.segs);
    if p.segs == [] {
      ResolveSkipsEmpty(true, [], []);
      assert [""] + [] == [""];
    } else {
      ResolveProper(true, [], p.segs);
      assert [] + p.segs == p.segs;
    }
  }

  lemma ShowInjective(p: Path, q: Path)
    requires CleanAbsolute(p) && CleanAbsolute(q) && Show(p) == Show(q)
    ensures p == q
  {
    ParseShow(p);
    ParseShow(q);
  }

  lemma RelativeShows(p: Path)
    requires CleanPath(p) && !p.rooted
    ensures Show(p) != "" && Show(p)[0] != '/'
    ensures Split(Show(p), '/') == (if p.segs == [] then ["."] else p.segs) && "." !in p.segs
  {
    if p.segs == [] {
      SplitOne(".", '/');
    } else {
      assert p.segs[0] in p.segs && p.segs[0][0] in p.segs[0];
      assert Join(p.segs, "/")[0] == p.segs[0][0];
      SplitJoin(p.segs, '/');
    }
  }

  /** Clean paths of either kind are told apart by their texts. */
  lemma ShownApart(p: Path, q: Path)
    requires CleanPath(p) && CleanPath(q) && Show(p) == Show(q)
    ensures p == q
  {
    if !p.rooted { RelativeShows(p); }
    if !q.rooted { RelativeShows(q); }
    assert "." in ["."];
    if p.rooted && q.rooted {
      ShowInjective(p, q);
    }
  }

  /** Appending a text resolves its parts on top of the path before it. */
  lemma ParseAppend(a: string, b: string)
    requires a != ""
    ensures Parse(a + "/" + b) == Path(IsAbs(a), Resolve(IsAbs(a), Parse(a).segs, Split(b, '/')))
  {
    SplitAppend(a, '/', b);
    ResolveAppend(IsAbs(a), [], Split(a, '/'), Split(b, '/'));
    assert (a + "/" + b)[0] == a[0];
  }

  // ---------------------------------------------------------------- What every step means

  lemma OneStep(rooted: bool, acc: seq<string>)
    ensures Resolve(rooted, acc, [""]) == acc && Resolve(rooted, acc, ["."]) == acc
    ensures Resolve(rooted, acc, [".."]) ==
              if acc != [] && acc[|acc| - 1] != ".." then acc[..|acc| - 1] else if rooted then acc else acc + [".."]
  {
    assert [""][1..] == ["."][1..] == [".."][1..] == [];
  }

  /** A name goes down to it, an empty part or a dot goes nowhere. */
  lemma StepDown(a: string, name: string)
    requires a != "" && Proper(name)
    ensures Parse(a + "/" + name) == Path(IsAbs(a), Parse(a).segs + [name])
    ensures Parse(a + "/") == Parse(a) && Parse(a + "/.") == Parse(a)
  {
    ParseAppend(a, name);
    SplitOne(name, '/');
    ResolveProper(IsAbs(a), Parse(a).segs, [name]);
    ParseAppend(a, "");
    assert a + "/" + "" == a + "/";
    ParseAppend(a, ".");
    assert a + "/" + "." == a + "/.";
    SplitOne(".", '/');
    OneStep(IsAbs(a), Parse(a).segs);
  }

  /** Two dots go up: they drop the last name; at the root directory they do nothing, and a relative path that
      has no name left gets longer by them. */
  lemma StepUp(a: string)
    requires a != ""
    ensures var p := Parse(a);
            Parse(a + "/..") == Path(p.rooted,
              if p.segs != [] && p.segs[|p.segs| - 1] != ".." then p.segs[..|p.segs| - 1]
              else if p.rooted then []
              else p.segs + [".."])
  {
    ParseAppend(a, "..");
    assert a + "/" + ".." == a + "/..";
    SplitOne("..", '/');
    OneStep(IsAbs(a), Parse(a).segs);
    if IsAbs(a) {
      ParseIsClean(a);
      assert Parse(a).segs != [] ==> Parse(a).segs[|Parse(a).segs| - 1] in Parse(a).segs;
    }
  }

  /** So a name followed by two dots is as if neither was there. */
  lemma DownAndUp(a: string, name: string, b: string)
    requires a != "" && Proper(name)
    ensures Parse(a + "/" + name + "/..") == Parse(a)
    ensures Parse(a + "/" + name + "/../" + b) == Parse(a + "/" + b)
  {
    var down := a + "/" + name;
    StepDown(a, name);
    StepUp(down);
    assert down[0] == a[0];
    ParseAppend(down + "/..", b);
    assert (down + "/..")[0] == a[0];
    assert down + "/.." + "/" + b == a + "/" + name + "/../" + b;
    ParseAppend(a, b);
  }

  /** The steps start at the root directory, or at the working directory with a name or without. */
  lemma FirstStep(name: string)
    requires Proper(name)
    ensures Parse("/") == Path(true, []) && Parse("/..") == Path(true, []) && Parse("/" + name) == Path(true, [name])
    ensures Parse("") == Parse(".") == Path(false, []) && Parse("..") == Path(false, [".."])
    ensures Parse(name) == Path(false, [name])
  {
    SplitOne(name, '/');
    SplitOne(".", '/');
    SplitOne("..", '/');
    OneStep(false, []);
    ResolveProper(false, [], [name]);
    assert [] + [name] == [name] && [] + [".."] == [".."];
    FromTheRoot("");
    FromTheRoot("..");
    FromTheRoot(name);
    OneStep(true, []);
    ResolveProper(true, [], [name]);
  }

  lemma FromTheRoot(part: string)
    requires '/' !in part
    ensures "/" + part == ['/'] + part && Parse("/" + part) == Path(true, Resolve(true, [], [part]))
  {
    SplitAppend("", '/', part);
    SplitOne(part, '/');
    assert "" + ['/'] + part == "/" + part;
    ResolveSkipsEmpty(true, [], [part]);
  }

  /** A run of steps up, and then down by names. */
  lemma {:induction false} UpsThenDown(acc: seq<string>, k: nat, names: seq<string>)
    requires forall s | s in acc || s in names :: Proper(s)
    ensures Resolve(true, acc, Ups(k) + names) == acc[..if k < |acc| then |acc| - k else 0] + names
    decreases k
  {
    if k == 0 {
      assert Ups(0) + names == names && acc[..|acc|] == acc;
      ResolveProper(true, acc, names);
    } else {
      var parts := Ups(k) + names;
      assert parts[0] == Ups(k)[0] && parts[0] in Ups(k);
      assert parts[1..] == Ups(k - 1) + names;
      if acc == [] {
        UpsThenDown([], k - 1, names);
      } else {
        assert acc[|acc| - 1] in acc;
        UpsThenDown(acc[..|acc| - 1], k - 1, names);
      }
    }
  }

  lemma JoinPathAbs(p: Path, b: string)
    requires CleanAbsolute(p)
    ensures CleanAbsolute(Path(true, Resolve(true, p.segs, Split(b, '/'))))
    ensures JoinPath(Show(p), b) == Show(Path(true, Resolve(true, p.segs, Split(b, '/'))))
  {
    ParseShow(p);
    SplitHasNoSeparator(b, '/');
    ResolveIsProper(p.segs, Split(b, '/'));
    if b == "" {
      ResolveSkipsEmpty(true, p.segs, []);
      assert [""] + [] == [""];
    } else {
      ParseAppend(Show(p), b);
    }
  }

  // ---------------------------------------------------------------- Containment

  /** `parent` is `path` or one of its ancestors. */
  ghost predicate Within(path: Path, parent: Path) {
    parent.segs <= path.segs
  }

  lemma ShowBelow(path: Path, parent: Path)
    requires Within(path, parent) && path != parent && path.rooted && parent.rooted && parent.segs != []
    ensures Show(parent) + "/" <= Show(path)
  {
    var below := path.segs[|parent.segs|..];
    assert path.segs == parent.segs + below;
    JoinAppend(parent.segs, below, "/");
    assert Show(path) == Show(parent) + "/" + Join(below, "/");
  }

  lemma BelowShow(path: Path, parent: Path)
    requires CleanAbsolute(path) && CleanAbsolute(parent) && parent.segs != []
    requires Show(parent) + "/" <= Show(path)
    ensures Within(path, parent) && path != parent
  {
    var rest := Show(path)[|Show(parent)| + 1..];
    assert Show(path) == Show(parent) + ['/'] + rest;
    SplitAppend(Show(parent), '/', rest);
    SplitShow(path);
    SplitShow(parent);
    var tail := if path.segs == [] then [""] else path.segs;
    assert ([""] + tail)[1..] == tail;
    assert ([""] + parent.segs + Split(rest, '/'))[1..] == parent.segs + Split(rest, '/');
    assert tail == parent.segs + Split(rest, '/');
    assert tail[0] == parent.segs[0] && parent.segs[0] in parent.segs;
  }

  /** The string test `HasPrefix(path, parent + "/")` is the segment test, for any parent but the root. */
  lemma PrefixIsWithin(path: Path, parent: Path)
    requires CleanAbsolute(path) && CleanAbsolute(parent) && parent.segs != []
    ensures Show(parent) + "/" <= Show(path) <==> Within(path, parent) && path != parent
  {
    if Show(parent) + "/" <= Show(path) { BelowShow(path, parent); }
    if Within(path, parent) && path != parent { ShowBelow(path, parent); }
  }

  /** Below the root directory the same string test never succeeds: no clean path starts with "//". */
  lemma NothingBelowSlashSlash(path: Path)
    requires CleanAbsolute(path)
    ensures !("/" + "/" <= Show(path))
  {
    if path.segs != [] {
      var first := path.segs[0];
      assert first in path.segs && first[0] in first;
      assert Show(path)[1] == first[0];
    }
  }

  // ---------------------------------------------------------------- filepath.Rel

  function CommonPrefix(a: seq<string>, b: seq<string>): (n: nat)
    ensures n <= |a| && n <= |b| && a[..n] == b[..n]
    ensures n < |a| && n < |b| ==> a[n] != b[n]
  {
    if a != [] && b != [] && a[0] == b[0] then
      var n := CommonPrefix(a[1..], b[1..]);
      assert a[..n + 1] == [a[0]] + a[1..][..n] && b[..n + 1] == [b[0]] + b[1..][..n];
      n + 1
    else 0
  }

  function Ups(n: nat): (ups: seq<string>)
    ensures |ups| == n && forall u | u in ups :: u == ".."
  {
    seq(n, _ => "..")
  }

  /** The steps up from the base and down to the target. */
  function RelSegs(base: Path, target: Path): seq<string> {
    var n := CommonPrefix(base.segs, target.segs);
    Ups(|base.segs| - n) + target.segs[n..]
  }

  /** What filepath.Rel goes down to; the relative target "." is a step of its own. */
  function DownSegs(base: Path, target: Path): seq<string> {
    if !target.rooted && target.segs == [] && base.segs != [] then RelSegs(base, target) + ["."]
    else RelSegs(base, target)
  }

  /** filepath.Rel, as text. None when one path is absolute and the other is not, and when the base leaves
      the common part by "..". */
  function Rel(base: Path, target: Path): Option<string> {
    var n := CommonPrefix(base.segs, target.segs);
    if base.rooted != target.rooted || (n < |base.segs| && base.segs[n] == "..") then None
    else Some(Show(Path(false, DownSegs(base, target))))
  }

  lemma RelWithin(base: Path, target: Path)
    requires Within(target, base)
    ensures RelSegs(base, target) == target.segs[|base.segs|..] == DownSegs(base, target)
    ensures base.rooted == target.rooted ==> Rel(base, target) == Some(Show(Path(false, RelSegs(base, target))))
  {
    var n := CommonPrefix(base.segs, target.segs);
    assert forall k | 0 <= k < |base.segs| :: base.segs[k] == target.segs[k];
    assert n == |base.segs|;
  }

  lemma RelOutside(base: Path, target: Path)
    requires !Within(target, base)
    ensures RelSegs(base, target) != [] && RelSegs(base, target)[0] == ".."
    ensures DownSegs(base, target) != [] && DownSegs(base, target)[0] == ".."
  {
    var n := CommonPrefix(base.segs, target.segs);
    assert n < |base.segs|;
    assert Ups(|base.segs| - n)[0] in Ups(|base.segs| - n);
  }

  /** The first characters of a joined path are those of its first segment. */
  lemma JoinStartsWithDots(segs: seq<string>)
    requires segs != [] && forall s | s in segs :: Segment(s)
    ensures ".." <= Join(segs, "/") <==> ".." <= segs[0]
  {
    var first, text := segs[0], Join(segs, "/");
    assert first in segs && first[0] in first;
    assert first <= text;
    assert |first| > 1 ==> first[1] == text[1];
    assert first[0] == text[0];
    if |first| == 1 {
      assert first != ".";
      assert first == [first[0]];
      assert "." == ['.'];
      assert first[0] != '.';
    }
  }
}
