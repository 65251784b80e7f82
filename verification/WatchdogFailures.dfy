/** Runs of the Watchdog model in which the supervisor fails its service, and with them the exact list of the
    places in the code where a goroutine interferes with a process that is not its own. */
module WatchdogFailures {
  import opened Wrappers
  import opened Watchdog
  import opened WatchdogRuns
  import opened WatchdogRestarts
  import opened WatchdogRaces

  // ---------------------------------------------------------------- Building runs

  /** Nobody has asked for a stop. */
  ghost predicate OnlyStarts(s: State) {
    forall c | 0 <= c < |s.calls| :: s.calls[c].start
  }

  ghost predicate NoKills(s: State) {
    forall i | 0 <= i < |s.log| :: !s.log[i].KillTried? && !s.log[i].FileKill?
  }

  /** One process, which runs and is registered. */
  ghost predicate FirstRuns(s: State, dir: string) {
    && Reachable(s) && OnlyStarts(s) && NoKills(s) && |s.calls| == 1
    && s.procs == [Proc(dir, Blocking, None, 0, Waiting)] && Entry(s, dir) == Some(0)
    && FileOf(s, dir) == Some(Bash(0)) && s.calls[0] == Call(dir, true, None, Returned)
  }

  lemma FirstDeploy(dir: string) returns (s: State)
    ensures FirstRuns(s, dir)
  {
    LeadsNowhere(Initial, None);
    LeadsOn(Initial, Initial, BeginStart(dir), None);
    s := WholeStart(Apply(Initial, BeginStart(dir)), 0);
  }

  /** A whole start call in one go. */
  lemma WholeStart(s: State, c: nat) returns (t: State)
    requires Reachable(s) && c < |s.calls| && s.calls[c].start && s.calls[c].stage == Begun
    ensures Reachable(t)
    ensures var call, kill := s.calls[c], KillOf(s, c, s.calls[c].dir);
            && t.procs == s.procs + [Proc(call.dir, Blocking, None, 0, Waiting)]
            && Entry(t, call.dir) == Some(|s.procs|) && FileOf(t, call.dir) == Some(Bash(|s.procs|))
            && t.calls == s.calls[c := call.(stage := Returned)] && s.log <= t.log
            && TakenOut(call.dir, c, call.restarts, Entry(s, call.dir)) in t.log
            && Launched(call.dir, |s.procs|, c, call.restarts, None) in t.log
            && (kill.Some? ==> kill.value in t.log)
            && forall i | |s.log| <= i < |t.log| && (t.log[i].KillTried? || t.log[i].FileKill?) ::
                 kill == Some(t.log[i])
  {
    var s1 := TakesAndKills(Initial, s, c, None);
    t := Launches(Initial, s1, c, None);
    var call, kill := s.calls[c], KillOf(s, c, s.calls[c].dir);
    StartLogged(s.log, TakenOut(call.dir, c, call.restarts, Entry(s, call.dir)), kill, Cleaned(call.dir, c),
                Launched(call.dir, |s.procs|, c, call.restarts, None));
  }

  lemma StartLogged(log: seq<Event>, out: Event, kill: Option<Event>, cleaned: Event, launched: Event)
    ensures var longer := log + [out] + (if kill.Some? then [kill.value] else []) + [cleaned] + [launched];
            && log <= longer && out in longer && launched in longer && (kill.Some? ==> kill.value in longer)
            && forall i | |log| <= i < |longer| ::
                 longer[i] == out || Some(longer[i]) == kill || longer[i] == cleaned || longer[i] == launched
  {
    var longer := log + [out] + (if kill.Some? then [kill.value] else []) + [cleaned] + [launched];
    assert longer[|log|] == out && longer[|longer| - 1] == launched;
    if kill.Some? { assert longer[|log| + 1] == kill.value; }
  }

  /** A second deploy of the directory, start to end. */
  lemma SecondDeploy(s: State, dir: string) returns (t: State)
    requires Reachable(s) && |s.procs| == 1
    ensures Reachable(t) && t.procs == s.procs + [Proc(dir, Blocking, None, 0, Waiting)] && Entry(t, dir) == Some(1)
    ensures s.log <= t.log && (OnlyStarts(s) ==> OnlyStarts(t))
    ensures t.calls == s.calls + [Call(dir, true, None, Returned)]
    ensures NeverSignalled(s.log, 1) ==> NeverSignalled(t.log, 1)
  {
    LeadsOn(Initial, s, BeginStart(dir), None);
    var begun := Apply(s, BeginStart(dir));
    t := WholeStart(begun, |s.calls|);
    if NeverSignalled(s.log, 1) {
      ReachableIsGood(begun);
      KillIsKnown(begun, |s.calls|, dir);
      StaysUnsignalled(s.log, t.log, 1);
    }
  }

  lemma KillIsKnown(s: State, c: nat, dir: string)
    requires RegistryGood(s) && FilesGood(s)
    ensures forall p | |s.procs| <= p :: KillOf(s, c, dir).Some? ==> !AimsAt(KillOf(s, c, dir).value, p, Bash(p))
  {
  }

  lemma StaysUnsignalled(log: seq<Event>, longer: seq<Event>, q: nat)
    requires NeverSignalled(log, q) && log <= longer
    requires forall i | |log| <= i < |longer| :: !AimsAt(longer[i], q, Bash(q))
    ensures NeverSignalled(longer, q)
  {
    assert forall i | 0 <= i < |log| :: longer[i] == log[i] && log[i] in log;
  }

  /** One move of the first process's goroutine. */
  lemma Moves(s: State, m: Move) returns (t: State)
    requires Reachable(s) && |s.procs| >= 1
    ensures Reachable(t) && t == Moved(s, 0, m)
  {
    LeadsOn(Initial, s, Run(0, m), None);
    t := Moved(s, 0, m);
  }

  // ---------------------------------------------------------------- Who interferes

  /** Where a watchdog changes the registry: in its own goroutine, or in the call that restarts its process
      (lines 83, 181 and 162). */
  datatype Place = Own(site: Site) | RestartClear | RestartTakeOut | RestartLaunch

  /** The watchdog behind an event that touches an entry, None for a deploy or a stop. */
  function Actor(e: Event): Option<nat> {
    match e
    case Touched(_, p, _, _) => Some(p)
    case Cleared(_, _, restarts, _) => restarts
    case TakenOut(_, _, restarts, _) => restarts
    case Launched(_, _, _, restarts, _) => restarts
    case _ => None
  }

  function PlaceOf(e: Event): Place
    requires Actor(e).Some?
  {
    if e.Touched? then Own(e.site)
    else if e.Cleared? then RestartClear
    else if e.TakenOut? then RestartTakeOut
    else RestartLaunch
  }

  /** A watchdog changes an entry that is not its process's own: it hits another process, or stores its
      record again where there is none. */
  predicate Interferes(e: Event) {
    && Actor(e).Some? && Before(e) != Actor(e)
    && (Before(e).Some? || (e.Touched? && Stores(e.site)))
  }

  lemma CheckedSitesAreOwn(log: seq<Event>, i: nat)
    requires LogGood(log) && i < |log| && log[i].Touched? && !log[i].site.HealthStore?
    requires !log[i].site.SettleDelete? && !log[i].site.HealthDelete?
    ensures log[i].over == Some(log[i].proc)
  {
    assert FitsAt(log, i);
    if log[i].site.PidStore? || log[i].site.GroupStore? {
      var k := CheckedStoreIsUndisturbed(log, i);
      assert StandsSince(log, i, log[i].dir, log[i].proc, k);
      FoundWasLeft(log, i, log[i].proc);
    }
  }

  /** For every run: a goroutine finds its own record in the entry it changes exactly if what it or its
      launch stored there still stands. */
  lemma OwnEntryExactly(acts: seq<Action>, i: nat)
    requires i < |Exec(Initial, acts).log| && Exec(Initial, acts).log[i].Touched?
    ensures var log := Exec(Initial, acts).log;
            log[i].over == Some(log[i].proc) <==> exists m :: StandsSince(log, i, log[i].dir, log[i].proc, m)
  {
    AlwaysGood(acts);
    FoundWasLeft(Exec(Initial, acts).log, i, Exec(Initial, acts).log[i].proc);
  }

  ghost predicate InterferesAt(acts: seq<Action>, i: nat, place: Place, stopped: bool) {
    && i < |Exec(Initial, acts).log| && Interferes(Exec(Initial, acts).log[i])
    && PlaceOf(Exec(Initial, acts).log[i]) == place && (Before(Exec(Initial, acts).log[i]).None? <==> stopped)
  }

  predicate Checked(place: Place) {
    place == Own(PidStore) || place == Own(GroupStore) || place == Own(WatchDelete)
  }

  lemma UncheckedDeployRun(dir: string, site: Site) returns (s: State, i: nat)
    requires site.HealthStore? || site.SettleDelete? || site.HealthDelete?
    ensures Reachable(s) && i < |s.log| && s.log[i] == Touched(dir, 0, site, Some(1))
    ensures OnlyStarts(s) && |s.procs| == 2 && s.procs[1] == Proc(dir, Blocking, None, 0, Waiting)
            && Entry(s, dir) != Some(1)
  {
    if site.HealthDelete? {
      s, i := SlowVerdictRun(dir);
    } else {
      var s1 := FirstDeploy(dir);
      var s2 := Moves(s1, Exit(false));
      var s3 := SecondDeploy(s2, dir);
      i := |s3.log|;
      s := Moves(s3, Settle(false, false, site.HealthStore?));
    }
  }

  /** The deploy comes while health.sh runs, and the script fails. */
  lemma SlowVerdictRun(dir: string) returns (s: State, i: nat)
    ensures Reachable(s) && i < |s.log| && s.log[i] == Touched(dir, 0, HealthDelete, Some(1))
    ensures OnlyStarts(s) && |s.procs| == 2 && s.procs[1] == Proc(dir, Blocking, None, 0, Waiting)
            && Entry(s, dir) != Some(1)
  {
    var s1 := FirstDeploy(dir);
    var s2 := Moves(s1, Exit(false));
    var s3 := Moves(s2, Settle(false, false, true));
    var s4 := Moves(s3, Tick(false, false));
    var s5 := SecondDeploy(s4, dir);
    i := |s5.log|;
    s := Moves(s5, Verdict(false));
  }

  lemma UncheckedStopRun(dir: string) returns (s: State, i: nat)
    ensures Reachable(s) && i < |s.log| && s.log[i] == Touched(dir, 0, HealthStore, None)
    ensures Entry(s, dir) == Some(0) && |s.procs| == 1 && s.procs[0].pc == Watching
  {
    s := FirstDeploy(dir);
    s := Moves(s, Exit(false));
    s := Stop(Initial, s, dir);
    i := |s.log|;
    s := Moves(s, Settle(false, false, true));
  }

  /** The first process's restart has begun, and a deploy has been launched since. */
  lemma DeployMeetsRestart(dir: string) returns (s: State)
    ensures Reachable(s) && OnlyStarts(s) && Entry(s, dir) == Some(1)
    ensures |s.procs| == 2 && s.procs[1] == Proc(dir, Blocking, None, 0, Waiting)
    ensures |s.calls| == 3 && s.calls[1] == Call(dir, true, Some(0), Begun)
  {
    var s1 := FirstRestarts(dir);
    LeadsOn(Initial, s1, BeginStart(dir), None);
    s := WholeStart(Apply(s1, BeginStart(dir)), 2);
  }

  /** The restart's call hits it: at its delete if run.sh is gone, and otherwise at its take-out. */
  lemma RestartStepRun(dir: string, place: Place) returns (s: State, i: nat)
    requires place.RestartClear? || place.RestartTakeOut?
    ensures Reachable(s) && i < |s.log| && Interferes(s.log[i]) && PlaceOf(s.log[i]) == place
    ensures Before(s.log[i]) == Some(1) && Actor(s.log[i]) == Some(0)
  {
    var s1 := DeployMeetsRestart(dir);
    i := |s1.log|;
    if place.RestartClear? {
      LeadsOn(Initial, s1, Step(1, NoRunScript, true), None);
      s := Apply(s1, Step(1, NoRunScript, true));
    } else {
      ReachableIsGood(s1);
      s := TakesAndKills(Initial, s1, 1, None);
    }
  }

  /** And at its launch, if the deploy comes after its take-out. */
  lemma RestartLaunchRun(dir: string) returns (s: State, i: nat)
    ensures Reachable(s) && i < |s.log| && Interferes(s.log[i]) && PlaceOf(s.log[i]) == RestartLaunch
    ensures Before(s.log[i]) == Some(1) && Actor(s.log[i]) == Some(0)
  {
    var s1 := FirstRestarts(dir);
    ReachableIsGood(s1);
    var s2 := TakesAndKills(Initial, s1, 1, None);
    LeadsOn(Initial, s2, BeginStart(dir), None);
    var s3 := WholeStart(Apply(s2, BeginStart(dir)), 2);
    i := |s3.log|;
    s := Launches(Initial, s3, 1, None);
  }

  lemma InterferenceRun(place: Place, stopped: bool) returns (s: State, i: nat)
    requires !Checked(place) && (stopped ==> place == Own(HealthStore))
    ensures Reachable(s) && i < |s.log| && Interferes(s.log[i]) && PlaceOf(s.log[i]) == place
    ensures Before(s.log[i]).None? <==> stopped
  {
    if stopped {
      s, i := UncheckedStopRun("/srv/app");
    } else if place.Own? {
      s, i := UncheckedDeployRun("/srv/app", place.site);
    } else if place.RestartLaunch? {
      s, i := RestartLaunchRun("/srv/app");
    } else {
      s, i := RestartStepRun("/srv/app", place);
    }
  }

  /** Over all runs, these are the places where a watchdog interferes: the store of a health-checked record,
      over another process or after a stop; the delete after a clean exit, or after a failed health script,
      of another process; and each step of a restart's own call that changes the registry. At the other
      places it only ever changes its own entry. */
  lemma InterferesExactly(place: Place, stopped: bool)
    ensures (exists acts, i :: InterferesAt(acts, i, place, stopped)) <==>
              !Checked(place) && (stopped ==> place == Own(HealthStore))
  {
    forall acts, i | InterferesAt(acts, i, place, stopped)
      ensures !Checked(place) && (stopped ==> place == Own(HealthStore))
    {
      AlwaysGood(acts);
      var log := Exec(Initial, acts).log;
      if Checked(place) { CheckedSitesAreOwn(log, i); }
    }
    if !Checked(place) && (stopped ==> place == Own(HealthStore)) {
      var s, i := InterferenceRun(place, stopped);
      var acts :| NoStart(acts, None) && Exec(Initial, acts) == s;
      assert InterferesAt(acts, i, place, stopped);
    }
  }

  /** With two deploys and no stop, the newer process ends up running and unregistered, so its crash will
      not be answered. */
  lemma NewerDeployLosesItsWatchdog(dir: string, site: Site) returns (s: State)
    requires site.HealthStore? || site.SettleDelete? || site.HealthDelete?
    ensures Reachable(s) && OnlyStarts(s)
    ensures |s.procs| == 2 && s.procs[1] == Proc(dir, Blocking, None, 0, Waiting) && !CanRestart(s, 1)
  {
    var i;
    s, i := UncheckedDeployRun(dir, site);
  }

  // ---------------------------------------------------------------- A restart kills a newer deploy

  /** The check before a restart does not protect a newer deploy: one that is launched after the check is
      taken out, killed while it runs, and replaced. */
  lemma RestartKillsNewerDeploy(dir: string) returns (s: State)
    ensures Reachable(s) && OnlyStarts(s) && |s.procs| == 3 && Entry(s, dir) == Some(2)
    ensures RestartBegun(dir, 0, 1) in s.log && Launched(dir, 1, 2, None, None) in s.log
    ensures TakenOut(dir, 1, Some(0), Some(1)) in s.log && KillTried(1, 1, true) in s.log
            && Launched(dir, 2, 1, Some(0), None) in s.log
  {
    var s1 := FirstRestarts(dir);
    LeadsOn(Initial, s1, BeginStart(dir), None);
    var s2 := WholeStart(Apply(s1, BeginStart(dir)), 2);
    s := WholeStart(s2, 1);
    assert forall e | e in s1.log :: e in s2.log;
    assert forall e | e in s2.log :: e in s.log;
  }

  lemma FirstRestarts(dir: string) returns (s: State)
    ensures Reachable(s) && OnlyStarts(s) && |s.procs| == 1 && RestartBegun(dir, 0, 1) in s.log
    ensures |s.calls| == 2 && s.calls[1] == Call(dir, true, Some(0), Begun)
  {
    var s1 := FirstDeploy(dir);
    var s2 := Moves(s1, Exit(true));
    s := Moves(s2, BackoffOver);
    assert s.log[|s.log| - 1] == RestartBegun(dir, 0, 1) && s.log[|s.log| - 1] in s.log;
  }

  /** If run.sh is gone by then, the restart leaves the newer deploy running and unregistered instead. */
  lemma RestartUnregistersNewerDeploy(dir: string) returns (s: State)
    ensures Reachable(s) && OnlyStarts(s) && Cleared(dir, 1, Some(0), Some(1)) in s.log
    ensures |s.procs| == 2 && s.procs[1] == Proc(dir, Blocking, None, 0, Waiting) && Entry(s, dir) == None
  {
    var s1 := DeployMeetsRestart(dir);
    LeadsOn(Initial, s1, Step(1, NoRunScript, true), None);
    s := Apply(s1, Step(1, NoRunScript, true));
    assert s.log[|s1.log|] in s.log;
  }

  /** Two starts that overlap leave two processes: the first launched is overwritten without a kill. */
  lemma OverlappingStartsLeaveTwo(dir: string) returns (s: State)
    ensures Reachable(s) && OnlyStarts(s) && NoKills(s)
    ensures s.procs == [Proc(dir, Blocking, None, 0, Waiting), Proc(dir, Blocking, None, 0, Waiting)]
            && Entry(s, dir) == Some(1)
    ensures Launched(dir, 1, 0, None, Some(0)) in s.log
  {
    var s1 := TwoStartsOverlap(dir);
    var s2 := WholeStart(s1, 1);
    s := Launches(Initial, s2, 0, None);
    assert s.log[|s.log| - 1] in s.log;
  }

  lemma TwoStartsOverlap(dir: string) returns (s: State)
    ensures Reachable(s) && NoKills(s) && s.procs == [] && Entry(s, dir) == None && FileOf(s, dir) == None
    ensures s.calls == [Call(dir, true, None, Launching), Call(dir, true, None, Begun)]
  {
    LeadsNowhere(Initial, None);
    LeadsOn(Initial, Initial, BeginStart(dir), None);
    var s1 := Apply(Initial, BeginStart(dir));
    LeadsOn(Initial, s1, BeginStart(dir), None);
    s := TakesAndKills(Initial, Apply(s1, BeginStart(dir)), 0, None);
  }

  /** A deploy that finds no run.sh leaves the old process running, unregistered and unkilled. Its number stays
      in app.pid. */
  lemma DeployWithoutRunScript(dir: string) returns (s: State)
    ensures Reachable(s) && OnlyStarts(s) && NoKills(s)
    ensures s.procs == [Proc(dir, Blocking, None, 0, Waiting)]
            && Entry(s, dir) == None && FileOf(s, dir) == Some(Bash(0))
    ensures |s.calls| == 2 && s.calls[1] == Call(dir, true, None, Returned)
  {
    var s1 := FirstDeploy(dir);
    s := StartsWithoutRunScript(Initial, s1, dir);
  }

  /** A stop that finds no entry kills the number in app.pid. */
  lemma StopByFile(s: State, dir: string, named: Named) returns (t: State)
    requires Reachable(s) && Entry(s, dir) == None && FileOf(s, dir) == Some(named) && AliveNumber(s, named, true)
    ensures Reachable(t) && t.procs == s.procs && s.log <= t.log && FileKill(|s.calls|, dir, named, true) in t.log
  {
    t := Stop(Initial, s, dir);
    assert t.log[|s.log| + 1] in t.log;
  }

  /** The next stop kills it by that number. */
  lemma StopKillsByFile(dir: string) returns (s: State)
    ensures Reachable(s) && s.procs == [Proc(dir, Blocking, None, 0, Waiting)]
    ensures Cleared(dir, 1, None, Some(0)) in s.log && FileKill(2, dir, Bash(0), true) in s.log
  {
    var s1 := FirstDeploy(dir);
    var s2 := StartsWithoutRunScript(Initial, s1, dir);
    s := StopByFile(s2, dir, Bash(0));
    assert s.log[|s1.log|] in s.log;
  }

  /** Three deploys, each begun after the one before had returned, can leave two processes: the goroutine of
      the first deletes the entry of the second and app.pid, and the third then finds nothing to kill. */
  lemma ThreeDeploysLeaveTwo(dir: string) returns (s: State)
    ensures Reachable(s) && OnlyStarts(s) && |s.calls| == 3 && |s.procs| == 3
    ensures s.procs[1] == s.procs[2] == Proc(dir, Blocking, None, 0, Waiting) && Entry(s, dir) == Some(2)
    ensures TakenOut(dir, 2, None, None) in s.log && Launched(dir, 2, 2, None, None) in s.log
    ensures NeverSignalled(s.log, 1) && forall c | 0 <= c < 3 :: s.calls[c] == Call(dir, true, None, Returned)
  {
    var s1 := SecondIsDeleted(dir);
    LeadsOn(Initial, s1, BeginStart(dir), None);
    s := WholeStart(Apply(s1, BeginStart(dir)), 2);
    StaysUnsignalled(s1.log, s.log, 1);
  }

  lemma SecondIsDeleted(dir: string) returns (s: State)
    ensures Reachable(s) && |s.procs| == 2 && s.procs[1] == Proc(dir, Blocking, None, 0, Waiting)
    ensures Entry(s, dir) == None && FileOf(s, dir) == None && NeverSignalled(s.log, 1)
    ensures s.calls == [Call(dir, true, None, Returned), Call(dir, true, None, Returned)]
  {
    var s1 := FirstDeploy(dir);
    var s2 := Moves(s1, Exit(false));
    var s3 := SecondDeploy(s2, dir);
    s := Moves(s3, Settle(false, false, false));
  }

  // ---------------------------------------------------------------- A stop that kills nothing

  /** A health-checked service is stopped, the call returns, and nothing was killed. */
  lemma HealthCheckedSurvivesItsStop(dir: string) returns (s: State)
    ensures Reachable(s) && |s.calls| == 2 && s.calls[1] == Call(dir, false, None, Returned)
    ensures |s.procs| == 1 && HealthWatched(s.procs[0]) && Entry(s, dir) == None
    ensures KillTried(1, 0, false) in s.log
    ensures forall i | 0 <= i < |s.log| && (s.log[i].KillTried? || s.log[i].FileKill?) :: !Hit(s.log[i])
  {
    var s1 := FirstDeploy(dir);
    var s2 := Moves(s1, Exit(false));
    var s3 := Moves(s2, Settle(false, false, true));
    s := Stop(Initial, s3, dir);
    assert s.log[|s3.log| + 1] in s.log;
  }

  lemma BackgroundRuns(dir: string) returns (s: State)
    ensures Reachable(s) && NoKills(s) && |s.calls| == 1 && |s.procs| == 1 && s.procs[0].mode == Background
    ensures !s.procs[0].pc.Waiting? && Entry(s, dir) == Some(0) && FileOf(s, dir) == Some(Child(0))
  {
    var s1 := FirstDeploy(dir);
    var s2 := Moves(s1, Exit(false));
    s := Moves(s2, Settle(false, true, false));
  }

  /** The stop of a background service kills nothing, and removes app.pid. */
  lemma BackgroundSurvivesItsStop(dir: string) returns (s: State)
    ensures Reachable(s) && |s.procs| == 1 && s.procs[0].mode == Background
    ensures Entry(s, dir) == None && FileOf(s, dir) == None && KillTried(1, 0, false) in s.log
    ensures forall i | 0 <= i < |s.log| && (s.log[i].KillTried? || s.log[i].FileKill?) :: !Hit(s.log[i])
  {
    var s1 := BackgroundRuns(dir);
    s := Stop(Initial, s1, dir);
    assert s.log[|s1.log| + 1] in s.log;
  }

  /** But after a start that found no run.sh, a stop kills the child that app.pid names. */
  lemma StopKillsBackgroundByFile(dir: string) returns (s: State)
    ensures Reachable(s) && |s.procs| == 1 && s.procs[0].mode == Background
    ensures Cleared(dir, 1, None, Some(0)) in s.log && FileKill(2, dir, Child(0), true) in s.log
  {
    var s1 := BackgroundRuns(dir);
    var s2 := StartsWithoutRunScript(Initial, s1, dir);
    s := StopByFile(s2, dir, Child(0));
    assert s.log[|s1.log|] in s.log;
  }
}
