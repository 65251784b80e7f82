/** gosrc/deploypath/path.go: choosing the directory of a new project. The central promise is that
    registered deployment directories never come to lie inside one another. */
module DeployPath {
  import opened Wrappers
  import opened Text
  import opened Paths
  import opened Slug

  datatype PathError =
    | BaseDirRequired
    | ProjectNameRequired
    | ProtectedPath
    | PathDoesNotExist
    | PathNotDirectory
    | PathInsideDeploy
    | FinalPathEscaped
    | FinalPathCollision

  /** A disk without symbolic links: which paths, as segments below the root, are directories or files. */
  datatype Disk = Disk(dirs: set<seq<string>>, files: set<seq<string>>) {
    predicate Exists(segs: seq<string>) {
      segs in dirs || segs in files
    }
  }

  const PROTECTED_PATHS: set<string> :=
    {"/", "/etc", "/usr", "/bin", "/sbin", "/lib", "/lib64", "/boot", "/dev", "/proc", "/sys", "/run"}

  // ---------------------------------------------------------------- IsSubpath

  predicate IsSubpath(path: string, parent: string) {
    var p, q := Parse(path), Parse(parent);
    if Show(p) == Show(q) then true
    else
      match Rel(q, p)
      case None => false
      case Some(rel) => !(".." <= rel) && rel != ".."
  }

  /** The check, exactly, for absolute and relative paths. It is containment by whole segments, except that
      it is blind to a path whose first segment below the parent starts with two dots. */
  lemma IsSubpathExactly(path: string, parent: string)
    ensures var p, q := Parse(path), Parse(parent);
            IsSubpath(path, parent) <==>
              IsAbs(path) == IsAbs(parent) && Within(p, q) && (p == q || !(".." <= p.segs[|q.segs|]))
  {
    var p, q := Parse(path), Parse(parent);
    ParseIsCleanPath(path);
    ParseIsCleanPath(parent);
    if Show(p) == Show(q) {
      ShownApart(p, q);
    } else if p.rooted == q.rooted && Within(p, q) {
      assert p.segs != q.segs by { assert p == Path(p.rooted, p.segs) && q == Path(q.rooted, q.segs); }
      RelWithin(q, p);
      RelTextDots(p, |q.segs|);
    } else if p.rooted == q.rooted {
      RelOutside(q, p);
      var segs := DownSegs(q, p);
      assert ".." <= segs[0] <= Join(segs, "/");
    }
  }

  lemma RelTextDots(p: Path, n: nat)
    requires CleanPath(p) && n < |p.segs|
    ensures ".." <= Join(p.segs[n..], "/") <==> ".." <= p.segs[n]
  {
    var below := p.segs[n..];
    forall s | s in below ensures Segment(s) { assert s in p.segs; }
    JoinStartsWithDots(below);
  }

  // ---------------------------------------------------------------- ResolveDeploymentPath

  datatype Deployment = Deployment(baseDir: string, name: string, finalPath: string)

  function DeploymentName(projectName: string, random: seq<Byte>): string
    requires |random| == 4
  {
    SlugOf(projectName) + "-" + RandomHex(6, random)
  }

  /** The loop's test against one existing deployment. */
  predicate BlockedBy(base: string, deployment: string)
    requires IsAbs(base)
  {
    IsSubpath(base, Clean(deployment)) || base == Clean(deployment)
  }

  ghost predicate InsideExisting(base: string, existing: seq<string>)
    requires IsAbs(base)
  {
    exists d :: d in existing && BlockedBy(base, d)
  }

  /** A deployment name is one proper path segment that cannot start with a dot. */
  lemma NameIsProper(projectName: string, random: seq<Byte>)
    requires |random| == 4
    ensures var name := DeploymentName(projectName, random);
            Proper(name) && name[0] != '.' && Split(name, '/') == [name]
  {
    SlugIsSlug(projectName);
    var slug, hex := SlugOf(projectName), RandomHex(6, random);
    var name := slug + "-" + hex;
    forall c | c in name ensures c != '/' && c != '.' {
      assert c in slug || c == '-' || c in hex;
    }
    assert name[0] in name;
    SplitOne(name, '/');
  }

  /** The generated path is exactly one segment below the base, so the escape error cannot occur. */
  lemma FinalPathIsOneBelow(base: Path, projectName: string, random: seq<Byte>)
    requires CleanAbsolute(base) && |random| == 4
    ensures var name := DeploymentName(projectName, random);
            var final := Path(true, base.segs + [name]);
            CleanAbsolute(final) && Clean(JoinPath(Show(base), name)) == Show(final)
            && IsAbs(Show(final)) && Parse(Show(final)) == final && IsSubpath(Show(final), Show(base))
  {
    var name := DeploymentName(projectName, random);
    NameIsProper(projectName, random);
    JoinPathAbs(base, name);
    ResolveProper(true, base.segs, [name]);
    var final := Path(true, base.segs + [name]);
    ParseShow(final);
    ParseShow(base);
    IsSubpathExactly(Show(final), Show(base));
    assert final.segs[|base.segs|] == name;
    assert ".."[0] == '.';
  }

  function BaseOf(cwd: string, baseDirArg: string): Path {
    Parse(Abs(cwd, baseDirArg))
  }

  /** What each answer says about the request. The refusals come in this order. */
  ghost predicate Explains(cwd: string, disk: Disk, baseDirArg: string, projectName: string,
                           existing: seq<string>, name: string, r: Result<Deployment, PathError>)
    requires IsAbs(cwd)
  {
    var base := BaseOf(cwd, baseDirArg);
    var final := base.segs + [name];
    var given := baseDirArg != "" && projectName != "";
    match r
    case Ok(d) =>
      && given && d == Deployment(Show(base), name, Show(Path(true, final)))
      && CleanAbsolute(base) && Show(base) !in PROTECTED_PATHS
      && base.segs in disk.dirs && !disk.Exists(final)
      && IsAbs(Show(base)) && !InsideExisting(Show(base), existing)
    case Err(BaseDirRequired) => baseDirArg == ""
    case Err(ProjectNameRequired) => baseDirArg != "" && projectName == ""
    case Err(ProtectedPath) => given && Show(base) in PROTECTED_PATHS
    case Err(PathDoesNotExist) => given && Show(base) !in PROTECTED_PATHS && !disk.Exists(base.segs)
    case Err(PathNotDirectory) =>
      given && Show(base) !in PROTECTED_PATHS && base.segs in disk.files && base.segs !in disk.dirs
    case Err(PathInsideDeploy) =>
      && given && Show(base) !in PROTECTED_PATHS && base.segs in disk.dirs
      && IsAbs(Show(base)) && InsideExisting(Show(base), existing)
    case Err(FinalPathEscaped) => false
    case Err(FinalPathCollision) =>
      && given && Show(base) !in PROTECTED_PATHS && base.segs in disk.dirs
      && IsAbs(Show(base)) && !InsideExisting(Show(base), existing) && disk.Exists(final)
  }

  lemma InsideOneMore(base: string, existing: seq<string>, i: nat)
    requires IsAbs(base) && i < |existing|
    ensures InsideExisting(base, existing[..i + 1]) <==>
            InsideExisting(base, existing[..i]) || BlockedBy(base, existing[i])
    ensures BlockedBy(base, existing[i]) ==> InsideExisting(base, existing)
  {
    assert existing[..i + 1] == existing[..i] + [existing[i]];
    assert existing[i] in existing && existing[i] in existing[..i + 1];
  }

  method IsInsideExisting(baseDir: string, existing: seq<string>) returns (inside: bool)
    requires IsAbs(baseDir)
    ensures inside <==> InsideExisting(baseDir, existing)
  {
    for i := 0 to |existing|
      invariant !InsideExisting(baseDir, existing[..i])
    {
      InsideOneMore(baseDir, existing, i);
      if BlockedBy(baseDir, existing[i]) {
        return true;
      }
    }
    assert existing[..|existing|] == existing;
    return false;
  }

  method ResolveDeploymentPath(cwd: string, disk: Disk, baseDirArg: string, projectName: string,
                               existing: seq<string>, random: seq<Byte>)
    returns (r: Result<Deployment, PathError>)
    requires IsAbs(cwd) && |random| == 4
    ensures Explains(cwd, disk, baseDirArg, projectName, existing, DeploymentName(projectName, random), r)
    ensures r.Ok? ==> r.value.name == SlugOf(projectName) + "-" + HexEncode(random)[..6]
  {
    if baseDirArg == "" { return Err(BaseDirRequired); }
    if projectName == "" { return Err(ProjectNameRequired); }
    ghost var base := BaseOf(cwd, baseDirArg);
    AbsIsAbs(cwd, baseDirArg);
    ParseIsClean(Abs(cwd, baseDirArg));
    ParseShow(base);
    var baseDir := Clean(Abs(cwd, baseDirArg));
    assert baseDir == Show(base) && Parse(baseDir) == base;
    if baseDir in PROTECTED_PATHS { return Err(ProtectedPath); }
    if !disk.Exists(Parse(baseDir).segs) { return Err(PathDoesNotExist); }
    if Parse(baseDir).segs !in disk.dirs { return Err(PathNotDirectory); }
    var inside := IsInsideExisting(baseDir, existing);
    if inside { return Err(PathInsideDeploy); }
    var slug := Slugify(projectName);
    var suffix := RandomHex(6, random);
    var deploymentName := slug + "-" + suffix;
    assert deploymentName == DeploymentName(projectName, random);
    var finalPath := Clean(JoinPath(baseDir, deploymentName));
    FinalPathIsOneBelow(base, projectName, random);
    if !IsSubpath(finalPath, baseDir) { return Err(FinalPathEscaped); }
    if disk.Exists(Parse(finalPath).segs) { return Err(FinalPathCollision); }
    return Ok(Deployment(baseDir, deploymentName, finalPath));
  }

  lemma AbsIsAbs(cwd: string, s: string)
    requires IsAbs(cwd)
    ensures IsAbs(Abs(cwd, s))
  {
    if IsAbs(s) {
      ParseIsClean(s);
    } else if s != "" {
      assert (cwd + "/" + s)[0] == cwd[0];
    }
  }

  // ---------------------------------------------------------------- Runs of registrations

  datatype World = World(disk: Disk, registered: seq<string>)

  /** Register is an accepted registration: the guards of ResolveDeploymentPath, then the folder and the
      project row. Everything else that happens to the disk is up to the machine. */
  datatype Action =
    | Register(base: Path, name: string)
    | Unregister(index: nat)
    | MakeDir(segs: seq<string>)
    | MakeFile(segs: seq<string>)
    | RemoveTree(segs: seq<string>)

  ghost predicate Accepted(w: World, base: Path, name: string) {
    && CleanAbsolute(base) && Proper(name)
    && base.segs in w.disk.dirs && !w.disk.Exists(base.segs + [name])
    && IsAbs(Show(base)) && !InsideExisting(Show(base), w.registered)
  }

  /** Whatever ResolveDeploymentPath lets through meets the guards of Register. */
  lemma ResolvedIsAccepted(cwd: string, w: World, baseDirArg: string, projectName: string, random: seq<Byte>,
                           d: Deployment)
    requires IsAbs(cwd) && |random| == 4
    requires Explains(cwd, w.disk, baseDirArg, projectName, w.registered, DeploymentName(projectName, random), Ok(d))
    ensures Accepted(w, BaseOf(cwd, baseDirArg), DeploymentName(projectName, random))
    ensures Apply(w, Register(BaseOf(cwd, baseDirArg), DeploymentName(projectName, random))).registered
            == w.registered + [d.finalPath]
  {
    NameIsProper(projectName, random);
  }

  ghost predicate Under(segs: seq<string>, root: seq<string>) {
    root <= segs
  }

  ghost function Apply(w: World, a: Action): World {
    match a
    case Register(base, name) =>
      if Accepted(w, base, name) then
        World(w.disk.(dirs := w.disk.dirs + {base.segs + [name]}),
              w.registered + [Show(Path(true, base.segs + [name]))])
      else w
    case Unregister(i) =>
      if i < |w.registered| then w.(registered := w.registered[..i] + w.registered[i + 1..]) else w
    case MakeDir(segs) =>
      if segs != [] && segs[..|segs| - 1] in w.disk.dirs && segs !in w.disk.files
      then w.(disk := w.disk.(dirs := w.disk.dirs + {segs})) else w
    case MakeFile(segs) =>
      if segs != [] && segs[..|segs| - 1] in w.disk.dirs && segs !in w.disk.dirs
      then w.(disk := w.disk.(files := w.disk.files + {segs})) else w
    case RemoveTree(root) =>
      // A registered project's directory stays on disk.
      if root != [] && forall r | r in w.registered :: !Under(Parse(r).segs, root) then
        w.(disk := Disk(set s | s in w.disk.dirs && !Under(s, root), set s | s in w.disk.files && !Under(s, root)))
      else w
  }

  ghost function Exec(w: World, acts: seq<Action>): World
    decreases |acts|
  {
    if acts == [] then w else Apply(Exec(w, acts[..|acts| - 1]), acts[|acts| - 1])
  }

  /** The blind spot of the check: r lies above the base, and the first segment between them starts with
      two dots. */
  ghost predicate Overlooked(base: Path, r: string) {
    var q := Parse(r);
    Within(base, q) && |q.segs| < |base.segs| && ".." <= base.segs[|q.segs|]
  }

  ghost predicate OverlooksSome(base: Path, registered: seq<string>) {
    exists r :: r in registered && Overlooked(base, r)
  }

  /** Whatever is there lies in a directory. */
  ghost predicate TreeOk(disk: Disk) {
    && [] in disk.dirs
    && (forall s | s in disk.dirs && s != [] :: s[..|s| - 1] in disk.dirs)
    && (forall s | s in disk.files :: s != [] && s[..|s| - 1] in disk.dirs)
  }

  ghost predicate DiskOk(w: World) {
    TreeOk(w.disk) && forall r | r in w.registered :: OnDisk(w.disk, r)
  }

  ghost predicate Invariant(w: World) {
    DiskOk(w) && NonNested(w.registered)
  }

  ghost predicate OnDisk(disk: Disk, r: string) {
    IsAbs(r) && CleanAbsolute(Parse(r)) && Show(Parse(r)) == r && Parse(r).segs in disk.dirs
  }

  ghost predicate NonNested(registered: seq<string>) {
    forall i, j | 0 <= i < |registered| && 0 <= j < |registered| && i != j ::
      !Within(Parse(registered[i]), Parse(registered[j]))
  }

  /** Every ancestor of a directory is a directory. */
  lemma {:induction false} AncestorsExist(w: World, segs: seq<string>, ancestor: seq<string>)
    requires DiskOk(w) && segs in w.disk.dirs && ancestor <= segs
    ensures ancestor in w.disk.dirs
    decreases |segs|
  {
    if |ancestor| < |segs| {
      AncestorsExist(w, segs[..|segs| - 1], ancestor);
    } else {
      assert ancestor == segs;
    }
  }

  /** The check lets a base through below a registered directory only in its blind spot. */
  lemma InsideMeansOverlooked(w: World, base: Path, name: string, r: string)
    requires DiskOk(w) && Accepted(w, base, name) && r in w.registered
    ensures Within(base, Parse(r)) <==> Overlooked(base, r)
  {
    assert OnDisk(w.disk, r);
    ParseShow(base);
    assert Clean(r) == r;
    assert !BlockedBy(Show(base), r);
    IsSubpathExactly(Show(base), r);
    assert base == Path(true, base.segs) && Parse(r) == Path(true, Parse(r).segs);
  }

  lemma ProperPrefix(xs: seq<string>, base: seq<string>, name: string)
    requires xs <= base + [name] && xs != base + [name]
    ensures xs <= base
  {
  }

  /** The new directory never comes to lie above a registered one, and below one only in the blind spot. */
  lemma NewAgainst(w: World, base: Path, name: string, r: string)
    requires DiskOk(w) && Accepted(w, base, name) && r in w.registered
    ensures var final := Path(true, base.segs + [name]);
            !Within(Parse(r), final) && (Within(final, Parse(r)) <==> Overlooked(base, r))
  {
    var final, q := Path(true, base.segs + [name]), Parse(r);
    assert OnDisk(w.disk, r);
    InsideMeansOverlooked(w, base, name, r);
    if Within(q, final) { AncestorsExist(w, q.segs, final.segs); }
    if Within(final, q) { ProperPrefix(q.segs, base.segs, name); }
  }

  lemma FinalIsClean(base: Path, name: string)
    requires CleanAbsolute(base) && Proper(name)
    ensures var final := Path(true, base.segs + [name]);
            CleanAbsolute(final) && IsAbs(Show(final)) && Parse(Show(final)) == final
  {
    var final := Path(true, base.segs + [name]);
    forall s | s in final.segs ensures Proper(s) { assert s in base.segs || s == name; }
    ParseShow(final);
  }

  /** An accepted registration keeps the directories apart exactly if the check overlooked none of them. */
  lemma AcceptedNestsExactly(w: World, base: Path, name: string)
    requires Invariant(w) && Accepted(w, base, name)
    ensures NonNested(Apply(w, Register(base, name)).registered) <==> !OverlooksSome(base, w.registered)
  {
    FinalIsClean(base, name);
    var n := |w.registered|;
    var after := Apply(w, Register(base, name)).registered;
    if OverlooksSome(base, w.registered) {
      var k :| 0 <= k < n && Overlooked(base, w.registered[k]);
      NewAgainst(w, base, name, w.registered[k]);
      assert Within(Parse(after[n]), Parse(after[k]));
    } else {
      forall i, j | 0 <= i < |after| && 0 <= j < |after| && i != j ensures !Within(Parse(after[i]), Parse(after[j])) {
        if i == n { NewAgainst(w, base, name, w.registered[j]); }
        else if j == n { NewAgainst(w, base, name, w.registered[i]); }
      }
    }
  }

  /** The same for every attempt at a free place, accepted or refused, whatever is registered. */
  lemma RegistrationNestsExactly(w: World, base: Path, name: string)
    requires Invariant(w) && CleanAbsolute(base) && Proper(name)
    requires base.segs in w.disk.dirs && !w.disk.Exists(base.segs + [name])
    ensures NonNested(Apply(w, Register(base, name)).registered) <==> !OverlooksSome(base, w.registered)
  {
    ParseShow(base);
    if Accepted(w, base, name) { AcceptedNestsExactly(w, base, name); }
    if OverlooksSome(base, w.registered) {
      var r :| r in w.registered && Overlooked(base, r);
      forall d | d in w.registered ensures !BlockedBy(Show(base), d) { OverlookedIsNotBlocked(w, base, d, r); }
    }
  }

  /** At most one registered directory lies above a base. */
  lemma OnlyOneAbove(w: World, base: Path, d: string, r: string)
    requires Invariant(w) && d in w.registered && r in w.registered
    requires Within(base, Parse(d)) && Within(base, Parse(r))
    ensures d == r
  {
    var p, q := Parse(d), Parse(r);
    assert p.segs == base.segs[..|p.segs|] && q.segs == base.segs[..|q.segs|];
    assert p.segs <= q.segs || q.segs <= p.segs;
    assert Within(p, q) || Within(q, p);
    var i, j :| 0 <= i < |w.registered| && w.registered[i] == d && 0 <= j < |w.registered| && w.registered[j] == r;
    assert i == j;
  }

  /** So no directory blocks a base that lies in the blind spot of another. */
  lemma OverlookedIsNotBlocked(w: World, base: Path, d: string, r: string)
    requires Invariant(w) && CleanAbsolute(base) && Parse(Show(base)) == base && IsAbs(Show(base))
    requires d in w.registered && r in w.registered && Overlooked(base, r)
    ensures !BlockedBy(Show(base), d)
  {
    assert OnDisk(w.disk, d);
    assert Clean(d) == d;
    IsSubpathExactly(Show(base), d);
    if Within(base, Parse(d)) { OnlyOneAbove(w, base, d, r); }
  }

  /** A disk with the directory /srv/a/..b, and /srv/a registered. */
  function BlindWorld(): World {
    World(Disk({[], ["srv"], ["srv", "a"], BlindBase().segs}, {}), [Show(Path(true, ["srv", "a"]))])
  }

  function BlindBase(): Path {
    Path(true, ["srv", "a", "..b"])
  }

  lemma ParentsAreThere(a: string, b: string, c: string)
    ensures var dirs: set<seq<string>> := {[], [a], [a, b], [a, b, c]};
            forall s | s in dirs && s != [] :: s[..|s| - 1] in dirs
  {
    assert [a][..0] == [] && [a, b][..1] == [a] && [a, b, c][..2] == [a, b];
  }

  lemma SrvAIsThere()
    ensures var r := Show(Path(true, ["srv", "a"]));
            Parse(r) == Path(true, ["srv", "a"]) && OnDisk(BlindWorld().disk, r)
  {
    var above := Path(true, ["srv", "a"]);
    ParseShow(above);
    assert above.segs in BlindWorld().disk.dirs;
  }

  lemma ThreeAreProper(a: string, b: string, c: string)
    requires Proper(a) && Proper(b) && Proper(c)
    ensures CleanAbsolute(Path(true, [a, b, c]))
  {
  }

  lemma BlindBaseIsClean()
    ensures CleanAbsolute(BlindBase())
  {
    assert Proper("srv") && Proper("a") && Proper("..b");
    ThreeAreProper("srv", "a", "..b");
  }

  lemma BlindWorldIsOk()
    ensures Invariant(BlindWorld())
  {
    ParentsAreThere("srv", "a", "..b");
    SrvAIsThere();
  }

  lemma BlindBaseIsOverlooked()
    ensures Overlooked(BlindBase(), BlindWorld().registered[0])
  {
    SrvAIsThere();
    assert BlindBase().segs[..2] == ["srv", "a"];
  }

  /** The blind spot is there: a project in /srv/a/..b is accepted although /srv/a is registered. */
  lemma BlindSpotExists(name: string)
    requires Proper(name)
    ensures var w, base := BlindWorld(), BlindBase();
            && Show(base) == "/srv/a/..b" && w.registered == ["/srv/a"]
            && Invariant(w) && Accepted(w, base, name)
            && !NonNested(Apply(w, Register(base, name)).registered)
  {
    var w, base := BlindWorld(), BlindBase();
    BlindWorldIsOk();
    BlindBaseIsOverlooked();
    BlindIsAccepted(name);
    AcceptedNestsExactly(w, base, name);
    BlindTexts();
  }

  lemma BlindIsAccepted(name: string)
    requires Proper(name)
    ensures Accepted(BlindWorld(), BlindBase(), name)
  {
    var w, base := BlindWorld(), BlindBase();
    BlindWorldIsOk();
    BlindBaseIsClean();
    BlindBaseIsOverlooked();
    ParseShow(base);
    BlindIsFree(name);
    OverlookedIsNotBlocked(w, base, w.registered[0], w.registered[0]);
  }

  lemma BlindIsFree(name: string)
    ensures !BlindWorld().disk.Exists(BlindBase().segs + [name])
  {
    assert forall s | s in BlindWorld().disk.dirs :: |s| <= 3;
  }

  lemma BlindTexts()
    ensures Show(BlindBase()) == "/srv/a/..b" && Show(Path(true, ["srv", "a"])) == "/srv/a"
  {
    assert Join(["srv", "a"], "/") == "srv" + "/" + "a";
    assert Join(["srv", "a", "..b"], "/") == "srv" + "/" + ("a" + "/" + "..b");
  }

  lemma RegisterKeepsDisk(w: World, base: Path, name: string)
    requires DiskOk(w) && Accepted(w, base, name)
    ensures DiskOk(Apply(w, Register(base, name)))
  {
    FinalIsClean(base, name);
    var final := Path(true, base.segs + [name]);
    var w' := Apply(w, Register(base, name));
    NewDirKeepsTree(w.disk, base.segs, name);
    forall r | r in w'.registered ensures OnDisk(w'.disk, r) {
      if r in w.registered { assert OnDisk(w.disk, r); } else { assert r == Show(final); }
    }
  }

  lemma NewDirKeepsTree(disk: Disk, segs: seq<string>, name: string)
    requires TreeOk(disk) && segs in disk.dirs
    ensures TreeOk(disk.(dirs := disk.dirs + {segs + [name]}))
  {
    assert (segs + [name])[..|segs|] == segs;
  }

  lemma RemovedNonNested(registered: seq<string>, i: nat)
    requires NonNested(registered) && i < |registered|
    ensures NonNested(registered[..i] + registered[i + 1..])
  {
    var left := registered[..i] + registered[i + 1..];
    forall a, b | 0 <= a < |left| && 0 <= b < |left| && a != b ensures !Within(Parse(left[a]), Parse(left[b])) {
      var a', b' := if a < i then a else a + 1, if b < i then b else b + 1;
      assert left[a] == registered[a'] && left[b] == registered[b'];
    }
  }

  lemma UnregisterKeepsDisk(w: World, i: nat)
    requires DiskOk(w) && i < |w.registered|
    ensures DiskOk(Apply(w, Unregister(i)))
  {
    forall r | r in w.registered[..i] + w.registered[i + 1..] ensures r in w.registered {
      assert r in w.registered[..i] || r in w.registered[i + 1..];
    }
  }

  lemma RemoveKeepsDisk(w: World, root: seq<string>)
    requires DiskOk(w)
    ensures DiskOk(Apply(w, RemoveTree(root)))
  {
    var w' := Apply(w, RemoveTree(root));
    if w' != w {
      forall s | s in w'.disk.dirs && s != [] ensures s[..|s| - 1] in w'.disk.dirs { }
      forall r | r in w'.registered ensures OnDisk(w'.disk, r) { assert OnDisk(w.disk, r); }
    }
  }

  lemma StepKeepsDisk(w: World, a: Action)
    requires DiskOk(w)
    ensures DiskOk(Apply(w, a))
  {
    var w' := Apply(w, a);
    match a
    case Register(base, name) => if Accepted(w, base, name) { RegisterKeepsDisk(w, base, name); }
    case Unregister(i) => if i < |w.registered| { UnregisterKeepsDisk(w, i); }
    case MakeDir(segs) => forall r | r in w'.registered ensures OnDisk(w'.disk, r) { assert OnDisk(w.disk, r); }
    case MakeFile(segs) => forall r | r in w'.registered ensures OnDisk(w'.disk, r) { assert OnDisk(w.disk, r); }
    case RemoveTree(root) => RemoveKeepsDisk(w, root);
  }

  /** The registration lands in the blind spot of the check. */
  ghost predicate Slips(w: World, a: Action) {
    a.Register? && Accepted(w, a.base, a.name) && OverlooksSome(a.base, w.registered)
  }

  lemma StepNestsExactly(w: World, a: Action)
    requires Invariant(w)
    ensures NonNested(Apply(w, a).registered) <==> !Slips(w, a)
  {
    match a
    case Register(base, name) => if Accepted(w, base, name) { AcceptedNestsExactly(w, base, name); }
    case Unregister(i) => if i < |w.registered| { RemovedNonNested(w.registered, i); }
    case _ =>
  }

  /** At no point of the run do registered directories lie inside one another. */
  ghost predicate NeverNested(w: World, acts: seq<Action>) {
    NonNested(Exec(w, acts).registered) && (acts == [] || NeverNested(w, acts[..|acts| - 1]))
  }

  ghost predicate NoneSlips(w: World, acts: seq<Action>) {
    acts == []
    || (NoneSlips(w, acts[..|acts| - 1]) && !Slips(Exec(w, acts[..|acts| - 1]), acts[|acts| - 1]))
  }

  /** Over any run of registrations, removals and disk changes the registered directories stay pairwise
      non-nested throughout exactly if no accepted registration was overlooked by the check. */
  lemma {:induction false} RegistrationsStayNonNested(w: World, acts: seq<Action>)
    requires Invariant(w)
    ensures NeverNested(w, acts) <==> NoneSlips(w, acts)
    ensures DiskOk(Exec(w, acts))
    decreases |acts|
  {
    if acts != [] {
      RegistrationsStayNonNested(w, acts[..|acts| - 1]);
      LastStepRuns(w, acts);
    }
  }

  lemma LastStepRuns(w: World, acts: seq<Action>)
    requires acts != [] && DiskOk(Exec(w, acts[..|acts| - 1]))
    ensures var before := Exec(w, acts[..|acts| - 1]);
            && DiskOk(Exec(w, acts))
            && (NonNested(before.registered) ==>
                  (NonNested(Exec(w, acts).registered) <==> !Slips(before, acts[|acts| - 1])))
  {
    var before := Exec(w, acts[..|acts| - 1]);
    StepKeepsDisk(before, acts[|acts| - 1]);
    if NonNested(before.registered) { StepNestsExactly(before, acts[|acts| - 1]); }
  }
}
