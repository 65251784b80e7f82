/** gosrc/api/server.go: the path check in front of the file endpoints, and the relative paths those
    endpoints hand back to the browser. */
module ProjectPath {
  import opened Wrappers
  import opened Text
  import opened Paths

  datatype Violation = NullByte | Traversal | SymlinkEscape

  /** strings.TrimLeft(s, "/"). */
  function TrimLeftSlashes(s: string): string {
    if s != "" && s[0] == '/' then TrimLeftSlashes(s[1..]) else s
  }

  /** The containment test of the code: equal, or below by string prefix. */
  predicate InsideByPrefix(path: string, base: string) {
    path == base || base + "/" <= path
  }

  /** `link` is what EvalSymlinks reports for the target, None when the target does not exist. */
  function ResolveAndValidate(cwd: string, baseDir: string, requested: string, link: Option<string>)
    : Result<string, Violation>
  {
    if '\0' in requested then Err(NullByte)
    else
      var cleanBase := Abs(cwd, Clean(baseDir));
      var normReq := TrimLeftSlashes(Replace(requested, '\\', '/'));
      var targetAbs := Abs(cwd, Clean(JoinPath(cleanBase, normReq)));
      if !InsideByPrefix(targetAbs, cleanBase) then Err(Traversal)
      else if link.Some? && !InsideByPrefix(Abs(cwd, link.value), cleanBase) then Err(SymlinkEscape)
      else Ok(targetAbs)
  }

  // ---------------------------------------------------------------- The reference meaning

  /** The project directory as a clean path. */
  function BasePath(cwd: string, baseDir: string): Path {
    Parse(Abs(cwd, Clean(baseDir)))
  }

  /** Where a request points: its segments resolved on top of the project directory. */
  function Lexical(base: Path, requested: string): Path {
    Path(true, Resolve(true, base.segs, Split(Replace(requested, '\\', '/'), '/')))
  }

  /** Inside the project: the directory itself, or below it. The string test knows no "below" the root
      directory, because "/" + "/" is a prefix of no clean path. */
  ghost predicate Inside(path: Path, base: Path) {
    path == base || (base.segs != [] && Within(path, base))
  }

  lemma AbsIsClean(cwd: string, s: string)
    requires IsAbs(cwd)
    ensures CleanAbsolute(Parse(Abs(cwd, s))) && Show(Parse(Abs(cwd, s))) == Abs(cwd, s)
  {
    if IsAbs(s) {
      ParseIsClean(s);
      ParseShow(Parse(s));
    } else if s == "" {
      ParseIsClean(cwd);
      ParseShow(Parse(cwd));
    } else {
      assert (cwd + "/" + s)[0] == cwd[0];
      ParseIsClean(cwd + "/" + s);
      ParseShow(Parse(cwd + "/" + s));
    }
  }

  lemma InsideTest(path: Path, base: Path)
    requires CleanAbsolute(path) && CleanAbsolute(base)
    ensures InsideByPrefix(Show(path), Show(base)) <==> Inside(path, base)
  {
    if Show(path) == Show(base) { ShowInjective(path, base); }
    if base.segs == [] {
      assert Show(base) == "/";
      NothingBelowSlashSlash(path);
    } else {
      PrefixIsWithin(path, base);
    }
  }

  lemma {:induction false} TrimmedSlashesResolve(acc: seq<string>, s: string)
    ensures Resolve(true, acc, Split(TrimLeftSlashes(s), '/')) == Resolve(true, acc, Split(s, '/'))
  {
    if s != "" && s[0] == '/' {
      TrimmedSlashesResolve(acc, s[1..]);
      ResolveSkipsEmpty(true, acc, Split(s[1..], '/'));
    }
  }

  lemma TargetIsLexical(cwd: string, baseDir: string, requested: string)
    requires IsAbs(cwd)
    ensures var base := BasePath(cwd, baseDir);
            var normReq := TrimLeftSlashes(Replace(requested, '\\', '/'));
            CleanAbsolute(base) && CleanAbsolute(Lexical(base, requested))
            && Show(base) == Abs(cwd, Clean(baseDir))
            && Abs(cwd, Clean(JoinPath(Abs(cwd, Clean(baseDir)), normReq))) == Show(Lexical(base, requested))
  {
    var base := BasePath(cwd, baseDir);
    var slashed := Replace(requested, '\\', '/');
    AbsIsClean(cwd, Clean(baseDir));
    JoinPathAbs(base, TrimLeftSlashes(slashed));
    TrimmedSlashesResolve(base.segs, slashed);
    ParseShow(Lexical(base, requested));
  }

  /** The check, exactly: without a null byte a request is accepted if and only if its lexical resolution
      is inside the project and so is whatever it really links to; the answer is that resolution. */
  lemma AcceptedExactly(cwd: string, baseDir: string, requested: string, link: Option<string>)
    requires IsAbs(cwd)
    ensures var base := BasePath(cwd, baseDir);
            var target := Lexical(base, requested);
            ResolveAndValidate(cwd, baseDir, requested, link) ==
              if '\0' in requested then Err(NullByte)
              else if !Inside(target, base) then Err(Traversal)
              else if link.Some? && !Inside(Parse(Abs(cwd, link.value)), base) then Err(SymlinkEscape)
              else Ok(Show(target))
  {
    var base := BasePath(cwd, baseDir);
    TargetIsLexical(cwd, baseDir, requested);
    InsideTest(Lexical(base, requested), base);
    if link.Some? {
      AbsIsClean(cwd, link.value);
      InsideTest(Parse(Abs(cwd, link.value)), base);
    }
  }

  /** The text of a request that goes k directories up and then down by these names. */
  function UpAndDown(k: nat, names: seq<string>): string {
    Join(Ups(k) + names, "/")
  }

  /** What the check is for. A request goes k directories up from the project directory and down by names. It
      is refused exactly if it ends up outside: in a project in the root directory, if there is a name; elsewhere,
      if the names do not begin with those of the directories it has left. An accepted one is answered by the
      project directory without its last k names, and the names of the request. */
  lemma TraversalExactly(cwd: string, baseDir: string, k: nat, names: seq<string>, link: Option<string>)
    requires IsAbs(cwd) && k + |names| > 0
    requires forall s | s in names :: Proper(s) && '\\' !in s && '\0' !in s
    ensures var segs := BasePath(cwd, baseDir).segs;
            var up := if k < |segs| then |segs| - k else 0;
            var answer := ResolveAndValidate(cwd, baseDir, UpAndDown(k, names), link);
            && (answer == Err(Traversal) <==> if segs == [] then names != [] else !(segs[up..] <= names))
            && (answer.Ok? ==> answer.value == Show(Path(true, segs[..up] + names)))
            && (link.None? ==> answer.Ok? || answer == Err(Traversal))
  {
    var base, requested := BasePath(cwd, baseDir), UpAndDown(k, names);
    var segs := base.segs;
    var up := if k < |segs| then |segs| - k else 0;
    PlainRequest(Ups(k) + names);
    TargetIsLexical(cwd, baseDir, requested);
    UpsThenDown(segs, k, names);
    AcceptedExactly(cwd, baseDir, requested, link);
    InsideAgain(base, up, names);
  }

  lemma InsideAgain(base: Path, up: nat, names: seq<string>)
    requires base.rooted && up <= |base.segs|
    ensures Inside(Path(true, base.segs[..up] + names), base) <==>
              if base.segs == [] then names == [] else base.segs[up..] <= names
  {
    var segs := base.segs;
    assert segs == segs[..up] + segs[up..];
    PrefixesCancel(segs[..up], segs[up..], names);
    if segs == [] { assert segs[..up] + names == names; }
  }

  lemma PrefixesCancel(a: seq<string>, b: seq<string>, c: seq<string>)
    ensures a + b <= a + c <==> b <= c
  {
    if a + b <= a + c {
      assert forall i | 0 <= i < |b| :: b[i] == (a + b)[|a| + i] == (a + c)[|a| + i] == c[i];
    }
  }

  /** A request without backslashes and null bytes is cut at its slashes. */
  lemma PlainRequest(parts: seq<string>)
    requires parts != [] && forall s | s in parts :: '/' !in s && '\\' !in s && '\0' !in s
    ensures var text := Join(parts, "/");
            '\0' !in text && Replace(text, '\\', '/') == text && Split(text, '/') == parts
  {
    SplitJoin(parts, '/');
    JoinHasOnly(parts, '\0');
    JoinHasOnly(parts, '\\');
  }

  lemma {:induction false} JoinHasOnly(parts: seq<string>, c: char)
    requires c != '/' && forall s | s in parts :: c !in s
    ensures c !in Join(parts, "/")
  {
    if |parts| > 1 { JoinHasOnly(parts[1..], c); }
  }

  /** Without symbolic links the second test is redundant. */
  lemma AcceptedWithoutLinks(cwd: string, baseDir: string, requested: string, present: bool)
    requires IsAbs(cwd) && '\0' !in requested
    ensures var base := BasePath(cwd, baseDir);
            var target := Lexical(base, requested);
            var link := if present then Some(Show(target)) else None;
            ResolveAndValidate(cwd, baseDir, requested, link) ==
              if Inside(target, base) then Ok(Show(target)) else Err(Traversal)
  {
    var target := Lexical(BasePath(cwd, baseDir), requested);
    TargetIsLexical(cwd, baseDir, requested);
    ParseShow(target);
    AcceptedExactly(cwd, baseDir, requested, if present then Some(Show(target)) else None);
  }

  /** The one base for which the check is stricter than containment: a project in "/" can reach nothing
      but the directory itself. */
  lemma RootProjectRefusesEverythingBelow(cwd: string, requested: string, link: Option<string>)
    requires IsAbs(cwd)
    ensures ResolveAndValidate(cwd, "/", requested, link).Ok? ==>
              Lexical(Path(true, []), requested).segs == []
  {
    ParseShow(Path(true, []));
    assert Show(Path(true, [])) == "/";
    AcceptedExactly(cwd, "/", requested, link);
  }

  // ---------------------------------------------------------------- Round trips

  /** What resolving adds on top of what it keeps comes from the request. */
  lemma {:induction false} ResolveShape(acc: seq<string>, parts: seq<string>) returns (kept: nat)
    ensures kept <= |acc| && kept <= |Resolve(true, acc, parts)|
    ensures Resolve(true, acc, parts)[..kept] == acc[..kept]
    ensures forall s | s in Resolve(true, acc, parts)[kept..] :: s in parts
    decreases |parts|
  {
    if parts == [] {
      kept := |acc|;
    } else {
      var part, rest := parts[0], parts[1..];
      if part == "" || part == "." {
        kept := ResolveShape(acc, rest);
      } else if part == ".." {
        if acc != [] && acc[|acc| - 1] != ".." {
          kept := ResolveShape(acc[..|acc| - 1], rest);
          assert acc[..|acc| - 1][..kept] == acc[..kept];
        } else {
          kept := ResolveShape(acc, rest);
        }
      } else {
        var k := ResolveShape(acc + [part], rest);
        var r := Resolve(true, acc + [part], rest);
        if k <= |acc| {
          kept := k;
          assert (acc + [part])[..k] == acc[..k];
        } else {
          kept := |acc|;
          KeptOneMore(r, acc, part);
        }
      }
    }
  }

  lemma KeptOneMore(r: seq<string>, acc: seq<string>, part: string)
    requires |acc| + 1 <= |r| && r[..|acc| + 1] == acc + [part]
    ensures r[..|acc|] == acc && r[|acc|..] == [part] + r[|acc| + 1..]
  {
    assert r[..|acc|] == r[..|acc| + 1][..|acc|];
    assert r[|acc|] == r[..|acc| + 1][|acc|];
  }

  lemma {:induction false} SplitPartsOf(s: string, sep: char, c: char)
    requires c !in s
    ensures forall p | p in Split(s, sep) :: c !in p
  {
    if s != "" {
      assert s[0] in s;
      SplitPartsOf(s[1..], sep, c);
      var rest := Split(s[1..], sep);
      assert rest[0] in rest;
      forall p | p in Split(s, sep) ensures c !in p {
        if s[0] == sep { assert p == "" || p in rest; }
        else {
          assert p == [s[0]] + rest[0] || p in rest[1..];
          if p in rest[1..] { assert p in rest; }
        }
      }
    }
  }

  /** Below the project directory a resolved request holds only characters of the slashed request. */
  lemma NewSegmentsAvoid(base: Path, requested: string, c: char)
    requires Within(Lexical(base, requested), base)
    requires c !in Replace(requested, '\\', '/')
    ensures forall s | s in Lexical(base, requested).segs[|base.segs|..] :: c !in s
  {
    var slashed := Replace(requested, '\\', '/');
    var kept := ResolveShape(base.segs, Split(slashed, '/'));
    SplitPartsOf(slashed, '/', c);
    var t := Lexical(base, requested).segs;
    forall s | s in t[|base.segs|..] ensures c !in s {
      var i :| 0 <= i < |t[|base.segs|..]| && t[|base.segs|..][i] == s;
      assert t[kept..][|base.segs| - kept + i] == s;
    }
  }

  lemma SlashedHasNo(requested: string)
    ensures '\\' !in Replace(requested, '\\', '/')
    ensures '\0' !in requested ==> '\0' !in Replace(requested, '\\', '/')
  {
  }

  lemma {:induction false} ReplaceNothing(s: string, from: char, to: char)
    requires from !in s
    ensures Replace(s, from, to) == s
  {
    forall i | 0 <= i < |s| ensures Replace(s, from, to)[i] == s[i] { assert s[i] in s; }
  }

  lemma {:induction false} JoinAvoids(parts: seq<string>, c: char)
    requires c != '/' && forall p | p in parts :: c !in p
    ensures c !in Join(parts, "/")
  {
    if parts != [] {
      assert parts[0] in parts;
      JoinAvoids(parts[1..], c);
    }
  }

  /** A relative text of proper, backslash-free segments names exactly those segments below the base. */
  lemma RelativeTextResolves(base: Path, below: seq<string>)
    requires forall s | s in below :: Proper(s) && '\\' !in s
    ensures Lexical(base, Join(below, "/")) == Path(true, base.segs + below)
    ensures below == [] ==> Lexical(base, Show(Path(false, below))) == Path(true, base.segs + below)
  {
    JoinAvoids(below, '\\');
    ReplaceNothing(Join(below, "/"), '\\', '/');
    if below == [] {
      ResolveSkipsEmpty(true, base.segs, []);
      assert [""] + [] == [""];
      SplitOne(".", '/');
      assert Replace(".", '\\', '/') == ".";
      assert base.segs + below == base.segs;
      assert ["."][1..] == [];
    } else {
      SplitJoin(below, '/');
      ResolveProper(true, base.segs, below);
    }
  }

  /** filepath.Rel from the service directory as it is configured; on an error the code goes on with "". */
  function RawRel(baseDir: string, target: Path): string {
    match Rel(Parse(baseDir), target)
    case None => ""
    case Some(rel) => rel
  }

  /** The current path a listing reports. */
  function Reported(baseDir: string, target: Path): string {
    var rel := RawRel(baseDir, target);
    if rel == "." then "" else rel
  }

  lemma AbsoluteBase(cwd: string, baseDir: string)
    requires IsAbs(cwd)
    ensures CleanAbsolute(BasePath(cwd, baseDir))
    ensures IsAbs(baseDir) ==> Parse(baseDir) == BasePath(cwd, baseDir)
  {
    AbsIsClean(cwd, Clean(baseDir));
    if IsAbs(baseDir) {
      ParseIsClean(baseDir);
      ParseShow(Parse(baseDir));
    }
  }

  lemma ShownBelowResolves(base: Path, below: seq<string>)
    requires forall s | s in below :: Proper(s) && '\\' !in s
    ensures var shown := Show(Path(false, below));
            Lexical(base, shown) == Path(true, base.segs + below)
            && Lexical(base, if shown == "." then "" else shown) == Path(true, base.segs + below)
  {
    RelativeTextResolves(base, below);
    if below != [] { JoinIsNotDot(below); }
  }

  lemma TailIsProper(target: Path, n: nat)
    requires CleanAbsolute(target) && n <= |target.segs|
    ensures forall s | s in target.segs[n..] :: Proper(s)
  {
    forall s | s in target.segs[n..] ensures Proper(s) { assert s in target.segs; }
  }

  lemma RelResolves(base: Path, target: Path)
    requires CleanAbsolute(target) && Within(target, base)
    requires forall s | s in target.segs[|base.segs|..] :: '\\' !in s
    ensures var rel := Show(Path(false, RelSegs(base, target)));
            Lexical(base, rel) == target && Lexical(base, if rel == "." then "" else rel) == target
  {
    var below := target.segs[|base.segs|..];
    TailIsProper(target, |base.segs|);
    ShownBelowResolves(base, below);
    assert target == Path(true, base.segs + below);
    RelWithin(base, target);
    assert RelSegs(base, target) == below;
  }

  lemma JoinIsNotDot(below: seq<string>)
    requires below != [] && forall s | s in below :: Proper(s)
    ensures Join(below, "/") != "."
  {
    var first := below[0];
    assert first in below && first != "" && first != ".";
    if |below| == 1 {
    } else {
      assert |Join(below, "/")| >= 2;
    }
  }

  lemma NothingResolves(base: Path)
    requires CleanAbsolute(base)
    ensures Lexical(base, "") == base
  {
    assert base == Path(true, base.segs + []);
    ShownBelowResolves(base, []);
  }

  /** Asking again for the path an endpoint reported, "." or "" for the directory itself, leads to the same
      file if and only if the service directory is configured as an absolute path, or the file is that
      directory: from a relative one no relative path can be computed, and the error goes unnoticed. */
  lemma ReportedRoundTrip(cwd: string, baseDir: string, requested: string)
    requires IsAbs(cwd) && '\0' !in requested
    requires Inside(Lexical(BasePath(cwd, baseDir), requested), BasePath(cwd, baseDir))
    ensures var base := BasePath(cwd, baseDir);
            var target := Lexical(base, requested);
            && ResolveAndValidate(cwd, baseDir, requested, None) == Ok(Show(target))
            && (ResolveAndValidate(cwd, baseDir, Reported(baseDir, target), None) == Ok(Show(target)) <==>
                  IsAbs(baseDir) || target == base)
            && (ResolveAndValidate(cwd, baseDir, RawRel(baseDir, target), None) == Ok(Show(target)) <==>
                  IsAbs(baseDir) || target == base)
  {
    var base := BasePath(cwd, baseDir);
    var target := Lexical(base, requested);
    AbsoluteBase(cwd, baseDir);
    TargetIsLexical(cwd, baseDir, requested);
    AcceptedExactly(cwd, baseDir, requested, None);
    if IsAbs(baseDir) {
      AbsoluteRoundTrip(cwd, baseDir, requested);
    } else {
      NothingResolves(base);
      AcceptedExactly(cwd, baseDir, "", None);
      if target != base && Show(target) == Show(base) { ShowInjective(target, base); }
    }
  }

  lemma AbsoluteRoundTrip(cwd: string, baseDir: string, requested: string)
    requires IsAbs(cwd) && IsAbs(baseDir) && '\0' !in requested
    requires Inside(Lexical(BasePath(cwd, baseDir), requested), BasePath(cwd, baseDir))
    ensures var target := Lexical(BasePath(cwd, baseDir), requested);
            && ResolveAndValidate(cwd, baseDir, Reported(baseDir, target), None) == Ok(Show(target))
            && ResolveAndValidate(cwd, baseDir, RawRel(baseDir, target), None) == Ok(Show(target))
  {
    var base := BasePath(cwd, baseDir);
    var target := Lexical(base, requested);
    AbsoluteBase(cwd, baseDir);
    TargetIsLexical(cwd, baseDir, requested);
    SlashedHasNo(requested);
    NewSegmentsAvoid(base, requested, '\\');
    NewSegmentsAvoid(base, requested, '\0');
    RelResolves(base, target);
    RelWithin(base, target);
    JoinAvoids(target.segs[|base.segs|..], '\0');
    AcceptedExactly(cwd, baseDir, Reported(baseDir, target), None);
    AcceptedExactly(cwd, baseDir, RawRel(baseDir, target), None);
  }

  lemma ListedEntryResolves(cwd: string, baseDir: string, dir: Path, name: string)
    requires IsAbs(cwd) && CleanAbsolute(dir) && Within(dir, BasePath(cwd, baseDir)) && Proper(name)
    requires forall s | s in dir.segs[|BasePath(cwd, baseDir).segs|..] :: '\\' !in s
    ensures var entry := Path(true, dir.segs + [name]);
            Lexical(BasePath(cwd, baseDir), RawRel(baseDir, entry)) == entry <==> IsAbs(baseDir) && '\\' !in name
  {
    var base, entry := BasePath(cwd, baseDir), Path(true, dir.segs + [name]);
    var below := dir.segs[|base.segs|..];
    AbsoluteBase(cwd, baseDir);
    assert entry.segs[|base.segs|..] == below + [name];
    assert (below + [name])[|below|] == name;
    assert name in entry.segs[|base.segs|..];
    if !IsAbs(baseDir) {
      NothingResolves(base);
    } else if '\\' !in name {
      RelResolves(base, entry);
    } else if Lexical(base, RawRel(baseDir, entry)) == entry {
      SlashedHasNo(RawRel(baseDir, entry));
      NewSegmentsAvoid(base, RawRel(baseDir, entry), '\\');
      assert false;
    }
  }

  lemma RawRelAvoids(cwd: string, baseDir: string, target: Path, c: char)
    requires IsAbs(cwd) && target.rooted && Within(target, BasePath(cwd, baseDir)) && c != '/' && c != '.'
    requires forall s | s in target.segs[|BasePath(cwd, baseDir).segs|..] :: c !in s
    ensures c !in RawRel(baseDir, target)
  {
    var base := BasePath(cwd, baseDir);
    AbsoluteBase(cwd, baseDir);
    if IsAbs(baseDir) {
      RelWithin(base, target);
      JoinAvoids(target.segs[|base.segs|..], c);
      assert RawRel(baseDir, target) == Show(Path(false, target.segs[|base.segs|..]));
    } else {
      assert Rel(Parse(baseDir), target) == None;
    }
  }

  /** A directory listing reports each entry's path. The endpoint answers the request for that path with the
      entry if and only if the service directory is configured as an absolute path, is not the root
      directory, and the entry's name holds no backslash: the check turns backslashes into separators. */
  lemma ListedEntryRoundTrip(cwd: string, baseDir: string, dir: Path, name: string)
    requires IsAbs(cwd) && CleanAbsolute(dir) && Within(dir, BasePath(cwd, baseDir)) && Proper(name)
    requires forall s | s in dir.segs[|BasePath(cwd, baseDir).segs|..] :: '\\' !in s
    requires forall s | s in dir.segs[|BasePath(cwd, baseDir).segs|..] + [name] :: '\0' !in s
    ensures var entry := Path(true, dir.segs + [name]);
            ResolveAndValidate(cwd, baseDir, RawRel(baseDir, entry), None) == Ok(Show(entry)) <==>
              IsAbs(baseDir) && '\\' !in name && BasePath(cwd, baseDir).segs != []
  {
    var base, entry := BasePath(cwd, baseDir), Path(true, dir.segs + [name]);
    AbsoluteBase(cwd, baseDir);
    assert entry.segs[|base.segs|..] == dir.segs[|base.segs|..] + [name];
    assert CleanAbsolute(entry) by {
      forall s | s in entry.segs ensures Proper(s) { assert s in dir.segs || s == name; }
    }
    RawRelAvoids(cwd, baseDir, entry, '\0');
    ListedEntryResolves(cwd, baseDir, dir, name);
    AcceptedExactly(cwd, baseDir, RawRel(baseDir, entry), None);
    TargetIsLexical(cwd, baseDir, RawRel(baseDir, entry));
    var target := Lexical(base, RawRel(baseDir, entry));
    if target != entry && Show(target) == Show(entry) { ShowInjective(target, entry); }
    assert |entry.segs| > |base.segs|;
  }
}
