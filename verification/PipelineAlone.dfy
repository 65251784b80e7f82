/** The two models of gosrc/actions/executor.go agree: a deploy that runs undisturbed, step by step, leaves
    the history that the sequential pipeline promises, and so does a rollback asked for by hand. */
module PipelineAlone {
  import opened Wrappers
  import opened History
  import opened Pipeline
  import opened HistoryRuns

  /** What one job meets: whether the sync succeeds and the commit after it, the project at its directory, the
      answers of its builds and health checks, whether there is a run.sh, and whether the log opens when a
      rollback first writes to it. */
  datatype World = World(synced: bool, hash: string, project: int, run: Run, runs: bool, logOpens: bool)

  function ProbeAt(w: World, depth: nat): Probe {
    if depth < 1 || !w.run.built then w.run.first else w.run.second
  }

  function AnswerTo(stage: Stage, w: World): Answer {
    var ok := match stage
      case Syncing(_) => w.synced
      case RollbackChosen(_) => w.logOpens
      case Building(_, _) => w.run.built
      case Checking(_, depth) => ProbeAt(w, depth).mode != InstallOnly
      case Probing(_, _, depth) => ProbeAt(w, depth).alive
      case RollingBack(_, _) => w.run.rebuilt
      case _ => true;
    Answer(ok, w.hash, w.project, w.runs)
  }

  function Next(s: State, t: nat, w: World): State
    requires t < |s.jobs|
  {
    Apply(s, Step(t, AnswerTo(s.jobs[t].stage, w)))
  }

  /** The job takes n steps and nobody else does anything. */
  function Alone(s: State, t: nat, w: World, n: nat): State
    requires t < |s.jobs|
    decreases n
  {
    if n == 0 then s else Alone(Next(s, t, w), t, w, n - 1)
  }

  ghost predicate Fits(s: State, t: nat, w: World) {
    t < |s.jobs| && w.project > 0 && w.project in s.users && s.users[w.project] == s.jobs[t].dir
  }

  lemma OneStep(s: State, t: nat, w: World, n: nat)
    requires Fits(s, t, w) && s.jobs[t].stage != Finished && n > 0
    ensures var u, j := Next(s, t, w), s.jobs[t];
            && Fits(u, t, w) && Alone(s, t, w, n) == Alone(u, t, w, n - 1)
            && u.jobs[t].stage == Advanced(s, j, AnswerTo(j.stage, w)).stage
            && u.rows == Database(s, j, AnswerTo(j.stage, w)).rows
  {
  }

  lemma {:induction false} FinishedStays(s: State, t: nat, w: World, n: nat)
    requires t < |s.jobs| && s.jobs[t].stage == Finished
    ensures Alone(s, t, w, n) == s
    decreases n
  {
    if n > 0 { FinishedStays(s, t, w, n - 1); }
  }

  /** The job ends, with these rows. */
  ghost predicate EndsWith(s: State, t: nat, w: World, n: nat, rows: seq<Row>)
    requires t < |s.jobs|
  {
    Alone(s, t, w, n).rows == rows && t < |Alone(s, t, w, n).jobs| && Alone(s, t, w, n).jobs[t].stage == Finished
  }

  lemma ProbeEnds(s: State, t: nat, w: World, n: nat, hash: string)
    requires Fits(s, t, w) && s.jobs[t].stage == Checking(hash, 1) && n >= 3
    ensures EndsWith(s, t, w, n,
                     if Pipeline.Passed(ProbeAt(w, 1)) then WithCurrent(s.rows, w.project, hash) else s.rows)
  {
    var s1 := Next(s, t, w);
    OneStep(s, t, w, n);
    if ProbeAt(w, 1).mode == InstallOnly {
      FinishedStays(s1, t, w, n - 1);
    } else {
      var s2 := Next(s1, t, w);
      OneStep(s1, t, w, n - 1);
      if ProbeAt(w, 1).alive {
        OneStep(s2, t, w, n - 2);
        FinishedStays(Next(s2, t, w), t, w, n - 3);
      } else {
        FinishedStays(s2, t, w, n - 2);
      }
    }
  }

  lemma RollbackEnds(s: State, t: nat, w: World, n: nat, hash: string)
    requires Fits(s, t, w) && s.jobs[t].stage == RollbackChosen(hash) && n >= 7
    ensures EndsWith(s, t, w, n,
                     if Sliceable(hash) && w.run.rebuilt then RolledBackRows(s.rows, w.project, hash) else s.rows)
  {
    var s1 := Next(s, t, w);
    OneStep(s, t, w, n);
    if !Sliceable(hash) && w.logOpens {
      FinishedStays(s1, t, w, n - 1);
      return;
    }
    var s2 := Next(s1, t, w);
    OneStep(s1, t, w, n - 1);
    if Sliceable(hash) && w.run.rebuilt {
      var s3 := Next(s2, t, w);
      OneStep(s2, t, w, n - 2);
      OneStep(s3, t, w, n - 3);
      RollbackSettles(s.rows, w.project, hash);
      ProbeEnds(Next(s3, t, w), t, w, n - 4, hash);
    } else {
      FinishedStays(s2, t, w, n - 2);
    }
  }

  lemma ChoosingEnds(s: State, t: nat, w: World, n: nat, failed: string)
    requires Fits(s, t, w) && s.jobs[t].stage == Choosing(w.project, failed) && n >= 8
    ensures EndsWith(s, t, w, n,
                     if HasRollbackTarget(s.rows, w.project, failed)
                        && SliceableTarget(s.rows, w.project) && w.run.rebuilt
                     then RolledBackRows(s.rows, w.project, CurrentHash(s.rows, w.project).value)
                     else s.rows)
  {
    OneStep(s, t, w, n);
    if HasRollbackTarget(s.rows, w.project, failed) {
      RollbackEnds(Next(s, t, w), t, w, n - 1, CurrentHash(s.rows, w.project).value);
    } else {
      FinishedStays(Next(s, t, w), t, w, n - 1);
    }
  }

  lemma BuildingEnds(s: State, t: nat, w: World, n: nat, hash: string)
    requires Fits(s, t, w) && s.jobs[t].stage == Building(w.project, hash) && n >= 11
    ensures EndsWith(s, t, w, n, FinalRows(s.rows, w.project, hash, w.run))
  {
    var s1 := Next(s, t, w);
    OneStep(s, t, w, n);
    if !w.run.built {
      ChoosingEnds(s1, t, w, n - 1, hash);
    } else {
      var s2 := Next(s1, t, w);
      OneStep(s1, t, w, n - 1);
      if w.run.first.mode == InstallOnly {
        FinishedStays(s2, t, w, n - 2);
      } else {
        var s3 := Next(s2, t, w);
        OneStep(s2, t, w, n - 2);
        if w.run.first.alive {
          OneStep(s3, t, w, n - 3);
          FinishedStays(Next(s3, t, w), t, w, n - 4);
        } else {
          ChoosingEnds(s3, t, w, n - 3, hash);
        }
      }
    }
  }

  /** A deploy is asked for in the directory of a registered project. Undisturbed it finishes within twelve
      steps with exactly the rows of the sequential pipeline. */
  lemma AloneIsPipeline(s: State, dir: string, w: World)
    requires w.project > 0 && w.project in s.users && s.users[w.project] == dir
    ensures var u, t := Apply(s, Deploy(dir, w.project)), |s.jobs|;
            && |u.jobs| == t + 1 && u.rows == s.rows
            && EndsWith(u, t, w, 12,
                        if w.synced then
                          FinalRows(s.rows + [Row(s.nextId, w.project, w.hash, "", Webhook, Intermediate)],
                                    w.project, w.hash, w.run)
                        else s.rows)
  {
    var u, t := Apply(s, Deploy(dir, w.project)), |s.jobs|;
    OneStep(u, t, w, 12);
    if w.synced {
      BuildingEnds(Next(u, t, w), t, w, 11, w.hash);
    } else {
      FinishedStays(Next(u, t, w), t, w, 11);
    }
  }

  /** A rollback is asked for by hand in the directory of a registered project. Undisturbed it finishes within
      seven steps. If the build succeeds, and the hash has its eight characters, the history is rolled back to
      the commit, row by row, and otherwise it is as before. */
  lemma RollBackAlone(s: State, dir: string, hash: string, w: World)
    requires w.project > 0 && w.project in s.users && s.users[w.project] == dir
    ensures var u, t := Apply(s, RollBackByHand(dir, hash)), |s.jobs|;
            && |u.jobs| == t + 1 && u.log == s.log + [ChosenByHand(dir, hash)] && u.rows == s.rows
            && var v := Alone(u, t, w, 7);
               && t < |v.jobs| && v.jobs[t].stage == Finished
               && if |hash| >= 8 && w.run.rebuilt then
                    && RolledBackTo(s.rows, v.rows, w.project, hash)
                    && (Recorded(s.rows, w.project, hash) ==> CurrentHash(v.rows, w.project) == Some(hash))
                  else v.rows == s.rows
  {
    var u, t := Apply(s, RollBackByHand(dir, hash)), |s.jobs|;
    RollbackEnds(u, t, w, 7, hash);
    RollbackExactly(s.rows, w.project, hash);
  }
}
