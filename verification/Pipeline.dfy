/** gosrc/actions/executor.go: deploy, post-deploy health check and automatic rollback, run from the
    start of one deployment to the last status it writes. Git, bash, the log file and the process engine
    answer through oracles, one answer per call. */
module Pipeline {
  import opened Wrappers
  import opened History

  datatype RunMode = Blocking | Background | Delegating | InstallOnly

  /** How one RunDeployment goes: does the log open, is there an install.sh and what is its hash ("" when
      it cannot be read), does it succeed if run, does the application start. */
  datatype Build = Build(logOpens: bool, scriptPresent: bool, scriptHash: string, installOk: bool, starts: bool)

  /** What one health check sees. */
  datatype Probe = Probe(mode: RunMode, alive: bool)

  /** The answers to the n-th RunDeployment, health check and rollback checkout. */
  datatype Oracles = Oracles(builds: nat -> Build, probes: nat -> Probe, checkouts: nat -> string) {
    function BuildAt(n: nat): Build { builds(n) }
    function ProbeAt(n: nat): Probe { probes(n) }
    function CheckoutAt(n: nat): string { checkouts(n) }
  }

  class Config {
    var serviceDir: string
    var skipInstallHash: bool

    constructor (serviceDir: string)
      ensures this.serviceDir == serviceDir && !skipInstallHash
    {
      this.serviceDir, skipInstallHash := serviceDir, false;
    }
  }

  // ---------------------------------------------------------------- What the oracles decide

  /** RunDeployment runs install.sh unless its hash is the cached one and skipping is allowed. */
  predicate Installs(b: Build, hashFile: string, force: bool) {
    b.logOpens && b.scriptPresent && (force || hashFile != b.scriptHash)
  }

  predicate BuildOk(b: Build, hashFile: string, force: bool) {
    b.logOpens && b.starts && (Installs(b, hashFile, force) ==> b.installOk)
  }

  function ProbedStatus(pr: Probe): DeployStatus {
    if pr.mode == InstallOnly then Installed
    else if !pr.alive then FailedDeploy
    else if pr.mode == Delegating then ExternallyManaged
    else Running
  }

  /** What the status says about a deployment, given the last health check it came to; None if its last build
      failed, or there was none. */
  ghost predicate Answers(status: DeployStatus, check: Option<Probe>) {
    && (status.Installed? <==> check.Some? && check.value.mode.InstallOnly?)
    && (status.ExternallyManaged? <==> check.Some? && check.value.mode.Delegating? && check.value.alive)
    && (status.Running? <==>
          check.Some? && (check.value.mode.Blocking? || check.value.mode.Background?) && check.value.alive)
    && (status.FailedDeploy? <==> check.None? || (!check.value.mode.InstallOnly? && !check.value.alive))
  }

  lemma ProbedAnswers()
    ensures forall pr: Probe :: Answers(ProbedStatus(pr), Some(pr))
    ensures Answers(FailedDeploy, None)
  {
  }

  function CodebaseDir(serviceDir: string): string {
    serviceDir + "/codebase"
  }

  predicate Passed(pr: Probe) {
    pr.mode != InstallOnly && pr.alive
  }

  predicate Failed(pr: Probe) {
    pr.mode != InstallOnly && !pr.alive
  }

  /** There is a previous good commit other than the one that failed. */
  predicate HasRollbackTarget(rows: seq<Row>, project: int, failed: string) {
    && CurrentHash(rows, project).Some?
    && CurrentHash(rows, project).value != "" && CurrentHash(rows, project).value != failed
  }

  predicate HasTargetFor(rows: seq<Row>, projects: map<string, ProjectId>, dir: string, failed: string) {
    dir in projects && HasRollbackTarget(rows, projects[dir], failed)
  }

  function RolledBackRows(rows: seq<Row>, project: int, hash: string): seq<Row> {
    WithCurrent(WithRolledBack(rows, project, hash), project, hash)
  }

  /** RollbackToCommit slices the first eight characters of the hash, and panics on a shorter one. */
  predicate Sliceable(hash: string) {
    |hash| >= 8
  }

  predicate SliceableTarget(rows: seq<Row>, project: int) {
    CurrentHash(rows, project).Some? && Sliceable(CurrentHash(rows, project).value)
  }

  predicate SliceableFor(rows: seq<Row>, projects: map<string, ProjectId>, dir: string) {
    dir in projects && SliceableTarget(rows, projects[dir])
  }

  /** Everything a rollback does to a recorded project's rows, given the health check that follows it. */
  lemma RollbackSettles(rows: seq<Row>, project: int, hash: string)
    ensures WithCurrent(RolledBackRows(rows, project, hash), project, hash) == RolledBackRows(rows, project, hash)
    ensures CurrentHash(RolledBackRows(rows, project, hash), project) ==
              if Recorded(rows, project, hash) then Some(hash) else None
  {
    WithCurrentIdempotent(WithRolledBack(rows, project, hash), project, hash);
    var marked := WithRolledBack(rows, project, hash);
    assert forall i | 0 <= i < |rows| :: Of(marked[i], project, hash) == Of(rows[i], project, hash);
    CurrentAfterSet(marked, project, hash);
  }

  lemma CurrentIsRecorded(rows: seq<Row>, project: int)
    ensures CurrentHash(rows, project).Some? ==> Recorded(rows, project, CurrentHash(rows, project).value)
  {
    CurrentHashNone(rows, project);
  }

  class Deployer {
    const db: Registry
    const world: Oracles
    var nBuilds: nat
    var nProbes: nat
    var nRollbacks: nat
    /** Content of install.hash, "" when there is none. */
    var hashFile: string
    /** Hash of the install.sh that last ran to completion. */
    ghost var lastInstalled: Option<string>

    ghost predicate Valid()
      reads this
    {
      hashFile != "" ==> lastInstalled == Some(hashFile)
    }

    constructor (db: Registry, world: Oracles)
      ensures Valid() && this.db == db
    {
      this.db, this.world := db, world;
      nBuilds, nProbes, nRollbacks, hashFile, lastInstalled := 0, 0, 0, "", None;
    }

    /** The install cache: install.sh is skipped only if this very version was the last to complete, so a
        deployment that succeeds always stands on its own install script. */
    method RunDeployment(cfg: Config) returns (ok: bool)
      requires Valid()
      modifies this`nBuilds, this`hashFile, this`lastInstalled
      ensures Valid() && nBuilds == old(nBuilds) + 1
      ensures ok <==> BuildOk(world.BuildAt(old(nBuilds)), old(hashFile), cfg.skipInstallHash)
      ensures var b := world.BuildAt(old(nBuilds));
              var skips := !b.scriptPresent || (old(hashFile) == b.scriptHash && !cfg.skipInstallHash);
              ok <==> b.logOpens && b.starts && (skips || b.installOk)
      ensures var b := world.BuildAt(old(nBuilds));
              ok && b.scriptPresent && b.scriptHash != "" ==>
                  lastInstalled == Some(b.scriptHash) && hashFile == b.scriptHash
      ensures var b := world.BuildAt(old(nBuilds));
              if Installs(b, old(hashFile), cfg.skipInstallHash) && b.installOk
              then hashFile == b.scriptHash && lastInstalled == Some(b.scriptHash)
              else hashFile == old(hashFile) && lastInstalled == old(lastInstalled)
    {
      var b := world.BuildAt(nBuilds);
      nBuilds := nBuilds + 1;
      if !b.logOpens {
        return false;
      }
      if b.scriptPresent {
        var currentHash := b.scriptHash;
        var lastHash := hashFile;
        if lastHash == currentHash && !cfg.skipInstallHash {
        } else {
          if !b.installOk {
            return false;
          }
          hashFile := currentHash;
          lastInstalled := Some(currentHash);
        }
      }
      if !b.starts {
        return false;
      }
      return true;
    }

    /** The checkout of a rollback, in the code directory for a while. The install cache goes if the other
        install.sh differs, and install.sh will be run in any case. */
    method CheckOut(cfg: Config, newInstallHash: string)
      requires Valid()
      modifies this`hashFile, cfg
      ensures Valid() && cfg.serviceDir == old(cfg.serviceDir) && cfg.skipInstallHash
      ensures hashFile == if old(hashFile) == newInstallHash then newInstallHash else ""
    {
      var oldDir := cfg.serviceDir;
      cfg.serviceDir := CodebaseDir(oldDir);
      if hashFile != newInstallHash {
        hashFile := "";
      }
      cfg.serviceDir := oldDir;
      cfg.skipInstallHash := true;
    }

    /** A rollback, with the health check it starts. Either the build fails, the history stays and the
        status is failed; or the history is rolled back exactly, and the health check can no longer move
        it. On a hash that is too short it panics: when it first writes to the log, or, if the log does not
        open, when it reports the build that then fails. */
    method RollbackToCommit(cfg: Config, commitHash: string) returns (ok: bool, panicked: bool)
      requires Valid()
      modifies this, db`rows, db`deployStatus, cfg
      ensures Valid() && cfg.serviceDir == old(cfg.serviceDir)
      ensures panicked <==> !Sliceable(commitHash)
      ensures !panicked ==> cfg.skipInstallHash
      ensures old(cfg.skipInstallHash) ==> cfg.skipInstallHash
      ensures nRollbacks == old(nRollbacks) + 1
      ensures nBuilds == old(nBuilds) + if panicked && world.BuildAt(old(nBuilds)).logOpens then 0 else 1
      ensures nProbes == old(nProbes) + if ok then 1 else 0
      ensures ok <==> !panicked && BuildOk(world.BuildAt(old(nBuilds)), "", true)
      ensures db.rows == if ok && cfg.serviceDir in db.projects
                         then RolledBackRows(old(db.rows), db.projects[cfg.serviceDir], commitHash) else old(db.rows)
      ensures db.deployStatus ==
                if panicked && world.BuildAt(old(nBuilds)).logOpens then old(db.deployStatus)
                else WithStatus(old(db.deployStatus), db.projects, cfg.serviceDir,
                                if ok then ProbedStatus(world.ProbeAt(old(nProbes))) else FailedDeploy)
      decreases 1
    {
      nRollbacks := nRollbacks + 1;
      if world.BuildAt(nBuilds).logOpens && |commitHash| < 8 {
        return false, true;
      }
      LastStatusWins(db.deployStatus, db.projects, cfg.serviceDir);
      var projectID := db.GetProjectIDByDir(cfg.serviceDir);
      db.SetDeployStatusByDir(cfg.serviceDir, Deploying);

      CheckOut(cfg, world.CheckoutAt(nRollbacks - 1));
      ok := RunDeployment(cfg);
      if !ok {
        db.SetDeployStatusByDir(cfg.serviceDir, FailedDeploy);
        return false, |commitHash| < 8;
      }
      ghost var before := db.rows;
      if projectID > 0 {
        db.MarkCommitRolledBack(projectID, commitHash);
        db.SetCurrentCommit(projectID, commitHash);
        RollbackSettles(before, projectID, commitHash);
      }
      var _ := PostDeployHealthCheck(cfg, commitHash, 1);
      return true, false;
    }

    /** The health check of a deployed commit. A pass makes it current; a failure at depth 0 rolls back to
        the commit that is current; at depth 1 nothing more happens. */
    method PostDeployHealthCheck(cfg: Config, hash: string, depth: int) returns (panicked: bool)
      requires Valid()
      modifies this, db`rows, db`deployStatus, cfg
      ensures Valid()
      ensures cfg.serviceDir == old(cfg.serviceDir) && (old(cfg.skipInstallHash) ==> cfg.skipInstallHash)
      ensures var pr := world.ProbeAt(old(nProbes));
              var rollsBack := depth < 1 && Failed(pr) && HasTargetFor(old(db.rows), db.projects, cfg.serviceDir, hash);
              var sliceable := SliceableFor(old(db.rows), db.projects, cfg.serviceDir);
              var rolledBack := rollsBack && sliceable && BuildOk(world.BuildAt(old(nBuilds)), "", true);
              && (panicked <==> rollsBack && !sliceable)
              && nRollbacks == old(nRollbacks) + (if rollsBack then 1 else 0)
              && nBuilds ==
                   old(nBuilds) + (if rollsBack && (sliceable || !world.BuildAt(old(nBuilds)).logOpens) then 1 else 0)
              && nProbes == old(nProbes) + (if rolledBack then 2 else 1)
              && db.deployStatus == WithStatus(old(db.deployStatus), db.projects, cfg.serviceDir,
                                               if !rollsBack then ProbedStatus(pr)
                                               else if rolledBack then ProbedStatus(world.ProbeAt(old(nProbes) + 1))
                                               else FailedDeploy)
              && (cfg.serviceDir in db.projects ==>
                    && cfg.serviceDir in db.deployStatus
                    && Answers(db.deployStatus[cfg.serviceDir],
                               if rolledBack then Some(world.ProbeAt(old(nProbes) + 1))
                               else if rollsBack then None else Some(pr)))
              && db.rows ==
                   if cfg.serviceDir !in db.projects then old(db.rows)
                   else if Passed(pr) then WithCurrent(old(db.rows), db.projects[cfg.serviceDir], hash)
                   else if rolledBack then
                     RolledBackRows(old(db.rows), db.projects[cfg.serviceDir],
                         CurrentHash(old(db.rows), db.projects[cfg.serviceDir]).value)
                   else old(db.rows)
      decreases if depth < 1 then 2 else 0
    {
      ProbedAnswers();
      LastStatusWins(db.deployStatus, db.projects, cfg.serviceDir);
      var pr := world.ProbeAt(nProbes);
      nProbes := nProbes + 1;
      var runMode := pr.mode;
      if runMode == InstallOnly {
        db.SetDeployStatusByDir(cfg.serviceDir, Installed);
        return false;
      }
      var projectID := db.GetProjectIDByDir(cfg.serviceDir);
      var alive := pr.alive;
      if alive {
        if projectID > 0 {
          db.SetCurrentCommit(projectID, hash);
        }
        var status := Running;
        if runMode == Delegating {
          status := ExternallyManaged;
        }
        db.SetDeployStatusByDir(cfg.serviceDir, status);
        return false;
      }
      db.SetDeployStatusByDir(cfg.serviceDir, FailedDeploy);
      if depth < 1 && projectID > 0 {
        var prevHash := db.GetPreviousCurrentCommit(projectID);
        if prevHash.Some? && prevHash.value != "" && prevHash.value != hash {
          var ok;
          ok, panicked := RollbackToCommit(cfg, prevHash.value);
          return;
        }
      }
      return false;
    }

    /** The answers the rest of a deployment will get, as things stand. */
    ghost function Ahead(cfg: Config): Run
      reads this, cfg
    {
      Run(BuildOk(world.BuildAt(nBuilds), hashFile, cfg.skipInstallHash), world.ProbeAt(nProbes),
          BuildOk(world.BuildAt(nBuilds + 1), "", true), world.ProbeAt(nProbes + 1))
    }

    /** A failed build: the status, and a rollback to the current commit if it is another one. */
    method BuildFailed(cfg: Config, hash: string) returns (panicked: bool)
      requires Valid()
      modifies this, db`rows, db`deployStatus, cfg
      ensures Valid() && cfg.serviceDir == old(cfg.serviceDir)
      ensures var rollsBack := HasTargetFor(old(db.rows), db.projects, cfg.serviceDir, hash);
              var sliceable := SliceableFor(old(db.rows), db.projects, cfg.serviceDir);
              var rolledBack := rollsBack && sliceable && BuildOk(world.BuildAt(old(nBuilds)), "", true);
              && (panicked <==> rollsBack && !sliceable)
              && nRollbacks == old(nRollbacks) + (if rollsBack then 1 else 0)
              && nBuilds ==
                   old(nBuilds) + (if rollsBack && (sliceable || !world.BuildAt(old(nBuilds)).logOpens) then 1 else 0)
              && nProbes == old(nProbes) + (if rolledBack then 1 else 0)
              && db.deployStatus == WithStatus(old(db.deployStatus), db.projects, cfg.serviceDir,
                                               if rolledBack then ProbedStatus(world.ProbeAt(old(nProbes)))
                                               else FailedDeploy)
              && db.rows ==
                   if rolledBack then
                     RolledBackRows(old(db.rows), db.projects[cfg.serviceDir],
                         CurrentHash(old(db.rows), db.projects[cfg.serviceDir]).value)
                   else old(db.rows)
    {
      LastStatusWins(db.deployStatus, db.projects, cfg.serviceDir);
      var projectID := db.GetProjectIDByDir(cfg.serviceDir);
      db.SetDeployStatusByDir(cfg.serviceDir, FailedDeploy);
      if projectID > 0 {
        var prevHash := db.GetPreviousCurrentCommit(projectID);
        if prevHash.Some? && prevHash.value != "" && prevHash.value != hash {
          var ok;
          ok, panicked := RollbackToCommit(cfg, prevHash.value);
          return;
        }
      }
      return false;
    }

    /** The deployment of a recorded commit: build and start, then the health check, with a rollback to the
        current commit if either fails. */
    method DeployRecorded(cfg: Config, hash: string) returns (panicked: bool)
      requires Valid()
      modifies this, db`rows, db`deployStatus, cfg
      ensures Valid() && cfg.serviceDir == old(cfg.serviceDir)
      ensures var run := old(Ahead(cfg));
              var rollsBack := run.Bad() && HasTargetFor(old(db.rows), db.projects, cfg.serviceDir, hash);
              var sliceable := SliceableFor(old(db.rows), db.projects, cfg.serviceDir);
              && (panicked <==> rollsBack && !sliceable)
              && nRollbacks == old(nRollbacks) + (if rollsBack then 1 else 0)
              && nBuilds ==
                   old(nBuilds) + (if rollsBack && (sliceable || !world.BuildAt(old(nBuilds) + 1).logOpens)
                                   then 2 else 1)
              && nProbes <= old(nProbes) + 2
              && db.rows == (if cfg.serviceDir in db.projects
                             then FinalRows(old(db.rows), db.projects[cfg.serviceDir], hash, run) else old(db.rows))
              && db.deployStatus == WithStatus(old(db.deployStatus), db.projects, cfg.serviceDir,
                   FinalStatus(run, rollsBack && sliceable))
    {
      var built := RunDeployment(cfg);
      if !built {
        panicked := BuildFailed(cfg, hash);
        return;
      }
      panicked := PostDeployHealthCheck(cfg, hash, 0);
    }

    /** One deployment with all it sets off, exactly. `syncOk` is SyncRepo's answer, `head` GetRepoHash's. */
    method FullDeployPipeline(cfg: Config, commitHash: string, commitMsg: string, syncOk: bool, head: Option<string>)
      returns (panicked: bool)
      requires Valid()
      modifies this, db`rows, db`nextId, db`deployStatus, cfg
      ensures Valid() && cfg.serviceDir == old(cfg.serviceDir)
      ensures nRollbacks <= old(nRollbacks) + 1 && nBuilds <= old(nBuilds) + 2 && nProbes <= old(nProbes) + 2
      ensures var hash, run := DeployedHash(commitHash, head), old(Ahead(cfg));
              var rollsBack := syncOk && run.Bad() && HasTargetFor(old(db.rows), db.projects, cfg.serviceDir, hash);
              var sliceable := SliceableFor(old(db.rows), db.projects, cfg.serviceDir);
              && (panicked <==> rollsBack && !sliceable)
              && nRollbacks == old(nRollbacks) + (if rollsBack then 1 else 0)
              && db.deployStatus == WithStatus(old(db.deployStatus), db.projects, cfg.serviceDir,
                                               if syncOk then FinalStatus(run, rollsBack && sliceable)
                                               else FailedDeploy)
      ensures cfg.serviceDir !in db.projects ==> db.rows == old(db.rows)
      ensures cfg.serviceDir in db.projects ==>
                var p := db.projects[cfg.serviceDir];
                db.rows == PipelineRows(old(db.rows), old(db.nextId), p, commitHash, head, commitMsg, syncOk,
                    old(Ahead(cfg)))
    {
      LastStatusWins(db.deployStatus, db.projects, cfg.serviceDir);
      ghost var rows0, run := db.rows, Ahead(cfg);
      var projectID := db.GetProjectIDByDir(cfg.serviceDir);
      db.SetDeployStatusByDir(cfg.serviceDir, Deploying);
      if !syncOk {
        db.SetDeployStatusByDir(cfg.serviceDir, FailedDeploy);
        return false;
      }
      var trigger := Webhook;
      var hash := commitHash;
      if commitHash == "" {
        trigger := Manual;
        if head.Some? {
          hash := head.value;
        }
      }
      if projectID > 0 {
        var _ := db.AddCommitToHistory(projectID, hash, commitMsg, trigger);
        EndToEnd(rows0, db.nextId - 1, projectID, commitHash, head, commitMsg, run);
      }
      panicked := DeployRecorded(cfg, hash);
    }

    /** What a deployment of a registered project promises. The current commit ends as the deployed commit
        if its own health check passed, and otherwise as the one that was current before; the rows are given
        one by one. The status is what the last health check found, or failed if the last build failed. There
        is at most one rollback and at most two builds. All this holds through a panic, which comes exactly if
        the deploy is bad and the current commit, being another one, has a hash of less than eight characters. */
    method DeployRegistered(cfg: Config, commitHash: string, commitMsg: string, syncOk: bool, head: Option<string>)
      returns (panicked: bool)
      requires Valid() && cfg.serviceDir in db.projects
      modifies this, db`rows, db`nextId, db`deployStatus, cfg
      ensures Valid()
      ensures nRollbacks <= old(nRollbacks) + 1 && nBuilds <= old(nBuilds) + 2
      ensures old(cfg.serviceDir) in db.deployStatus
      ensures var p, run := db.projects[old(cfg.serviceDir)], old(Ahead(cfg));
              var hash := if commitHash != "" then commitHash else if head.Some? then head.value else "";
              var current := CurrentHash(old(db.rows), p);
              var healthy := syncOk && run.built && !run.first.mode.InstallOnly? && run.first.alive;
              var bad := syncOk && (!run.built || (!run.first.mode.InstallOnly? && !run.first.alive));
              var rollsBack := bad && current.Some? && current.value != "" && current.value != hash;
              var rebuilt := rollsBack && |current.value| >= 8 && run.rebuilt;
              && (panicked <==> rollsBack && |current.value| < 8)
              && CurrentHash(db.rows, p) == (if healthy then Some(hash) else current)
              && Answers(db.deployStatus[old(cfg.serviceDir)],
                         if rebuilt then Some(if run.built then run.second else run.first)
                         else if syncOk && run.built then Some(run.first) else None)
              && if !syncOk then db.rows == old(db.rows)
                 else DeployedRows(old(db.rows), db.rows,
                     Row(old(db.nextId), p, hash, commitMsg, if commitHash == "" then Manual else Webhook,
                         Intermediate),
                     healthy, if rebuilt then current else None)
    {
      FinalAnswers();
      RowsExactly(db.rows, db.nextId, db.projects[cfg.serviceDir], commitHash, head, commitMsg, Ahead(cfg));
      EndToEnd(db.rows, db.nextId, db.projects[cfg.serviceDir], commitHash, head, commitMsg, Ahead(cfg));
      panicked := FullDeployPipeline(cfg, commitHash, commitMsg, syncOk, head);
    }
  }

  function NewRow(id: nat, project: int, commitHash: string, hash: string, msg: string): Row {
    Row(id, project, hash, msg, if commitHash == "" then Manual else Webhook, Intermediate)
  }

  /** The commit a pipeline deploys: the requested one, or the head found after the sync. */
  function DeployedHash(commitHash: string, head: Option<string>): string {
    if commitHash == "" && head.Some? then head.value else commitHash
  }

  /** The answers that decide a deployment after its sync: the build, the first health check, the build of
      a rollback, and the second health check. The first health check belongs to the rollback when the
      build failed, the second when it did not. */
  datatype Run = Run(built: bool, first: Probe, rebuilt: bool, second: Probe) {
    predicate Healthy() {
      built && Passed(first)
    }

    predicate Bad() {
      !built || Failed(first)
    }
  }

  /** What the rows, with the new one at the end, become. */
  function FinalRows(rows: seq<Row>, project: int, hash: string, run: Run): seq<Row> {
    if run.Healthy() then WithCurrent(rows, project, hash)
    else if run.Bad() && HasRollbackTarget(rows, project, hash) && SliceableTarget(rows, project) && run.rebuilt then
      RolledBackRows(rows, project, CurrentHash(rows, project).value)
    else rows
  }

  function FinalStatus(run: Run, rebuilds: bool): DeployStatus {
    if !run.Bad() then ProbedStatus(run.first)
    else if rebuilds && run.rebuilt then ProbedStatus(if run.built then run.second else run.first)
    else FailedDeploy
  }

  lemma FinalAnswers()
    ensures forall run: Run, rebuilds: bool ::
              Answers(FinalStatus(run, rebuilds),
                      if (!run.built || (!run.first.mode.InstallOnly? && !run.first.alive)) && rebuilds && run.rebuilt
                      then Some(if run.built then run.second else run.first)
                      else if run.built then Some(run.first) else None)
    ensures Answers(FailedDeploy, None)
  {
  }

  /** The rows after a deployment has put its row at the end. If its own health check passed, that row is
      current and another current row of the project is intermediate. If the current commit was rebuilt, the
      history is rolled back to it. Otherwise nothing else has changed. */
  ghost predicate DeployedRows(before: seq<Row>, after: seq<Row>, row: Row, healthy: bool, back: Option<string>) {
    if healthy then
      && |after| == |before| + 1 && after[|before|] == row.(status := Current)
      && forall i | 0 <= i < |before| ::
           after[i] == before[i].(status :=
             if before[i].project == row.project && before[i].status == Current then Intermediate
             else before[i].status)
    else if back.Some? then RolledBackTo(before + [row], after, row.project, back.value)
    else after == before + [row]
  }

  lemma RowsExactly(rows0: seq<Row>, id: nat, project: int, commitHash: string, head: Option<string>, msg: string,
                    run: Run)
    ensures var hash := DeployedHash(commitHash, head);
            var row, current := NewRow(id, project, commitHash, hash, msg), CurrentHash(rows0, project);
            var rolls := run.Bad() && current.Some? && current.value != "" && current.value != hash;
            DeployedRows(rows0, PipelineRows(rows0, id, project, commitHash, head, msg, true, run), row, run.Healthy(),
                         if rolls && |current.value| >= 8 && run.rebuilt then current else None)
  {
    var hash := DeployedHash(commitHash, head);
    var rows := rows0 + [NewRow(id, project, commitHash, hash, msg)];
    EndToEnd(rows0, id, project, commitHash, head, msg, run);
    if run.Healthy() {
      WithCurrentExactly(rows, project, hash);
      assert IsPromoted(rows, project, hash, |rows0|);
      PromotedIsUnique(rows, project, hash);
    } else if CurrentHash(rows0, project).Some? {
      RollbackExactly(rows, project, CurrentHash(rows0, project).value);
    }
  }

  function PipelineRows(rows: seq<Row>, id: nat, project: int, commitHash: string, head: Option<string>, msg: string,
                        synced: bool, run: Run): seq<Row>
  {
    var hash := DeployedHash(commitHash, head);
    if synced then FinalRows(rows + [NewRow(id, project, commitHash, hash, msg)], project, hash, run) else rows
  }

  /** The end-to-end claim on values. */
  lemma EndToEnd(rows0: seq<Row>, id: nat, project: int, commitHash: string, head: Option<string>, msg: string,
                 run: Run)
    ensures var hash := DeployedHash(commitHash, head);
            CurrentHash(rows0 + [NewRow(id, project, commitHash, hash, msg)], project) == CurrentHash(rows0, project)
    ensures CurrentHash(PipelineRows(rows0, id, project, commitHash, head, msg, true, run), project) ==
              if run.Healthy() then Some(DeployedHash(commitHash, head)) else CurrentHash(rows0, project)
  {
    var hash := DeployedHash(commitHash, head);
    var rows := rows0 + [NewRow(id, project, commitHash, hash, msg)];
    SameCurrentRows(rows, rows0, project, |rows0|);
    assert Of(rows[|rows0|], project, hash);
    CurrentAfterSet(rows, project, hash);
    CurrentIsRecorded(rows, project);
    if HasRollbackTarget(rows, project, hash) {
      RollbackSettles(rows, project, CurrentHash(rows, project).value);
    }
  }

  /** A pipeline keeps the table in order, touches the rows of no other project, and changes only statuses. */
  lemma PipelineKeepsTable(rows: seq<Row>, nextId: nat, project: int, hash: string, run: Run)
    requires TableOk(rows, nextId)
    ensures TableOk(FinalRows(rows, project, hash, run), nextId)
    ensures SameButStatus(rows, FinalRows(rows, project, hash, run))
    ensures forall p | p != project :: SameForProject(rows, FinalRows(rows, project, hash, run), p)
  {
    if run.Healthy() {
      SetKeeps(rows, nextId, project, hash);
    } else if HasRollbackTarget(rows, project, hash) {
      RollbackKeeps(rows, nextId, project, CurrentHash(rows, project).value);
    }
  }

  lemma RollbackKeeps(rows: seq<Row>, nextId: nat, project: int, target: string)
    requires TableOk(rows, nextId)
    ensures TableOk(RolledBackRows(rows, project, target), nextId)
    ensures SameButStatus(rows, RolledBackRows(rows, project, target))
    ensures forall p | p != project :: SameForProject(rows, RolledBackRows(rows, project, target), p)
  {
    var marked := WithRolledBack(rows, project, target);
    MarkKeeps(rows, nextId, project, target);
    SetKeeps(marked, nextId, project, target);
  }
}
