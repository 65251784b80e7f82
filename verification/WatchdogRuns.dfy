/** Runs of the Watchdog model: what a call does when it is left alone, and the invariants at the end of
    every run. */
module WatchdogRuns {
  import opened Wrappers
  import opened Watchdog

  /** No start of the directory is asked for; `None` allows everything. */
  ghost predicate NoStart(acts: seq<Action>, dir: Option<string>) {
    forall i | 0 <= i < |acts| && dir.Some? :: acts[i] != BeginStart(dir.value)
  }

  ghost predicate Leads(s: State, t: State, dir: Option<string>) {
    exists acts :: NoStart(acts, dir) && Exec(s, acts) == t
  }

  ghost predicate Reachable(s: State) {
    Leads(Initial, s, None)
  }

  lemma ReachableIsGood(s: State)
    requires Reachable(s)
    ensures Good(s)
  {
    var acts :| Exec(Initial, acts) == s;
    AlwaysGood(acts);
  }

  lemma LeadsNowhere(s: State, dir: Option<string>)
    ensures Leads(s, s, dir)
  {
    assert NoStart([], dir) && Exec(s, []) == s;
  }

  lemma LeadsOn(s: State, t: State, a: Action, dir: Option<string>)
    requires Leads(s, t, dir) && (dir.Some? ==> a != BeginStart(dir.value))
    ensures Leads(s, Apply(t, a), dir)
  {
    var acts :| NoStart(acts, dir) && Exec(s, acts) == t;
    assert (acts + [a])[..|acts|] == acts;
    assert NoStart(acts + [a], dir) && Exec(s, acts + [a]) == Apply(t, a);
  }

  lemma {:induction false} LeadsFurther(s: State, t: State, acts: seq<Action>, dir: Option<string>)
    requires Leads(s, t, dir) && NoStart(acts, dir)
    ensures Leads(s, Exec(t, acts), dir)
  {
    if acts != [] {
      LeadsFurther(s, t, acts[..|acts| - 1], dir);
      LeadsOn(s, Exec(t, acts[..|acts| - 1]), acts[|acts| - 1], dir);
    }
  }

  // ---------------------------------------------------------------- A call left alone

  function RestartsIn(log: seq<Event>): nat {
    if log == [] then 0
    else RestartsIn(log[..|log| - 1]) + if log[|log| - 1].RestartBegun? then 1 else 0
  }

  lemma RestartsInOne(log: seq<Event>, e: Event)
    ensures RestartsIn(log + [e]) == RestartsIn(log) + if e.RestartBegun? then 1 else 0
  {
    assert (log + [e])[..|log|] == log;
  }

  ghost predicate Underway(s: State, c: nat) {
    c < |s.calls| && s.calls[c].start && s.calls[c].stage != Returned
  }

  function StepsToLaunch(stage: Stage): nat {
    match stage
    case Begun => 5
    case Stopping => 4
    case Killing(_) => 3
    case Cleaning => 2
    case Launching => 1
    case Returned => 0
  }

  /** From s to t the call launched its process, and nothing else was launched or restarted. */
  ghost predicate LaunchedBy(s: State, t: State, c: nat)
    requires c < |s.calls|
  {
    var dir := s.calls[c].dir;
    && t.procs == s.procs + [Proc(dir, Blocking, None, 0, Waiting)]
    && Entry(t, dir) == Some(|s.procs|)
    && t.calls == s.calls[c := s.calls[c].(stage := Returned)]
    && RestartsIn(t.log) == RestartsIn(s.log) && s.log <= t.log
  }

  function Ahead(s: State, c: nat): State
    requires c < |s.calls|
  {
    Stepped(s, c, RunScript, true)
  }

  /** From s to t the call came nearer to its launch, and nothing was launched or restarted. */
  ghost predicate Nearer(s: State, t: State, c: nat)
    requires c < |s.calls|
  {
    && Underway(t, c) && StepsToLaunch(t.calls[c].stage) < StepsToLaunch(s.calls[c].stage)
    && t.procs == s.procs && t.calls == s.calls[c := s.calls[c].(stage := t.calls[c].stage)]
    && RestartsIn(t.log) == RestartsIn(s.log) && s.log <= t.log
  }

  lemma OneStepNearer(s: State, c: nat)
    requires Underway(s, c) && s.calls[c].stage != Launching
    ensures Nearer(s, Ahead(s, c), c)
  {
    AheadIsNoRestart(s, c);
    SteppedGrows(s, c, RunScript, true);
  }

  lemma LaunchedThen(s: State, t: State, u: State, c: nat)
    requires c < |s.calls| && Nearer(s, t, c) && LaunchedBy(t, u, c)
    ensures LaunchedBy(s, u, c)
  {
  }

  lemma {:induction false} NoRestartsAdded(log: seq<Event>, longer: seq<Event>)
    requires log <= longer && forall i | |log| <= i < |longer| :: !longer[i].RestartBegun?
    ensures RestartsIn(longer) == RestartsIn(log)
  {
    if log != longer {
      NoRestartsAdded(log, longer[..|longer| - 1]);
    }
  }

  lemma AheadIsNoRestart(s: State, c: nat)
    requires c < |s.calls|
    ensures s.log <= Ahead(s, c).log && RestartsIn(Ahead(s, c).log) == RestartsIn(s.log)
  {
    SteppedGrows(s, c, RunScript, true);
    NoRestartsAdded(s.log, Ahead(s, c).log);
  }

  /** An unfinished start call, left alone, launches its process. */
  lemma {:induction false} FinishingLaunches(s0: State, s: State, c: nat, dir: Option<string>) returns (t: State)
    requires Leads(s0, s, dir) && Underway(s, c)
    ensures Leads(s0, t, dir) && LaunchedBy(s, t, c)
    decreases StepsToLaunch(s.calls[c].stage)
  {
    LeadsOn(s0, s, Step(c, RunScript, true), dir);
    if s.calls[c].stage == Launching {
      t := Ahead(s, c);
      LastStep(s, c);
    } else {
      OneStepNearer(s, c);
      t := FinishingLaunches(s0, Ahead(s, c), c, dir);
      LaunchedThen(s, Ahead(s, c), t, c);
    }
  }

  lemma LastStep(s: State, c: nat)
    requires Underway(s, c) && s.calls[c].stage == Launching
    ensures LaunchedBy(s, Ahead(s, c), c)
  {
    AheadIsNoRestart(s, c);
  }

  /** What a call does to the old process when it is left alone: it kills the one it finds registered, or else
      the number in app.pid, and removes that file. */
  function KillOf(s: State, c: nat, dir: string): (e: Option<Event>) {
    if Entry(s, dir).Some? then
      var p := Entry(s, dir).value;
      if p < |s.procs| then Some(KillTried(c, p, Hits(s.procs[p]))) else None
    else if FileOf(s, dir).Some? then
      Some(FileKill(c, dir, FileOf(s, dir).value, AliveNumber(s, FileOf(s, dir).value, true)))
    else None
  }

  /** From s to t the call has taken out the old process and tried to kill it, and nothing else happened. */
  ghost predicate TakenAndKilled(s: State, t: State, c: nat)
    requires c < |s.calls|
  {
    var call, kill := s.calls[c], KillOf(s, c, s.calls[c].dir);
    && t.procs == s.procs && t.calls == s.calls[c := call.(stage := Cleaning)] && Entry(t, call.dir) == None
    && t.log == s.log + [TakenOut(call.dir, c, call.restarts, Entry(s, call.dir))]
                + if kill.Some? then [kill.value] else []
  }

  lemma FoundIsKilled(s: State, c: nat)
    requires c < |s.calls| && Entry(s, s.calls[c].dir).Some?
    ensures var out := TakeOut(At(s, c, Stopping), c, true);
            && c < |out.calls| && out.calls[c].stage == Killing(Entry(s, s.calls[c].dir).value)
            && TakenAndKilled(s, Kill(out, c, Entry(s, s.calls[c].dir).value), c)
  {
  }

  lemma MissedIsKilled(s: State, c: nat)
    requires c < |s.calls| && Entry(s, s.calls[c].dir).None?
    ensures TakenAndKilled(s, TakeOut(At(s, c, Stopping), c, true), c)
  {
  }

  /** A whole call in one go, up to its launch. */
  lemma TakesAndKills(s0: State, s: State, c: nat, dir: Option<string>) returns (t: State)
    requires Leads(s0, s, dir) && c < |s.calls| && s.calls[c].stage == Begun
    ensures Leads(s0, t, dir)
    ensures var call, kill := s.calls[c], KillOf(s, c, s.calls[c].dir);
            && t.procs == s.procs && Entry(t, call.dir) == None && FileOf(t, call.dir) == None
            && t.calls == s.calls[c := call.(stage := if call.start then Launching else Returned)]
            && t.log == s.log + [TakenOut(call.dir, c, call.restarts, Entry(s, call.dir))]
                        + (if kill.Some? then [kill.value] else []) + [Cleaned(call.dir, c)]
  {
    var s1 := KilledAlone(s0, s, c, dir);
    LeadsOn(s0, s1, Step(c, RunScript, true), dir);
    t := CleanUp(s1, c);
  }

  lemma KilledAlone(s0: State, s: State, c: nat, dir: Option<string>) returns (t: State)
    requires Leads(s0, s, dir) && c < |s.calls| && s.calls[c].stage == Begun
    ensures Leads(s0, t, dir) && TakenAndKilled(s, t, c)
  {
    var s1 := At(s, c, Stopping);
    LeadsOn(s0, s, Step(c, RunScript, true), dir);
    LeadsOn(s0, s1, Step(c, RunScript, true), dir);
    t := TakeOut(s1, c, true);
    if Entry(s, s.calls[c].dir).Some? {
      FoundIsKilled(s, c);
      LeadsOn(s0, t, Step(c, RunScript, true), dir);
      t := Kill(t, c, Entry(s, s.calls[c].dir).value);
    } else {
      MissedIsKilled(s, c);
    }
  }

  /** The launch that ends a start call. */
  lemma Launches(s0: State, s: State, c: nat, dir: Option<string>) returns (t: State)
    requires Leads(s0, s, dir) && Underway(s, c) && s.calls[c].stage == Launching
    ensures Leads(s0, t, dir)
    ensures var call := s.calls[c];
            && t.procs == s.procs + [Proc(call.dir, Blocking, None, 0, Waiting)]
            && Entry(t, call.dir) == Some(|s.procs|) && FileOf(t, call.dir) == Some(Bash(|s.procs|))
            && t.calls == s.calls[c := call.(stage := Returned)]
            && t.log == s.log + [Launched(call.dir, |s.procs|, c, call.restarts, Entry(s, call.dir))]
  {
    LeadsOn(s0, s, Step(c, RunScript, true), dir);
    t := Launch(s, c);
  }

  /** A start that finds no run.sh. */
  lemma StartsWithoutRunScript(s0: State, s: State, dir: string) returns (t: State)
    requires Leads(s0, s, None)
    ensures Leads(s0, t, None) && t.procs == s.procs && t.files == s.files && Entry(t, dir) == None
    ensures t.calls == s.calls + [Call(dir, true, None, Returned)]
    ensures t.log == s.log + [Cleared(dir, |s.calls|, None, Entry(s, dir))]
  {
    var s1 := Apply(s, BeginStart(dir));
    LeadsOn(s0, s, BeginStart(dir), None);
    LeadsOn(s0, s1, Step(|s.calls|, NoRunScript, true), None);
    t := Apply(s1, Step(|s.calls|, NoRunScript, true));
  }

  /** A stop of the directory, start to end. */
  lemma Stop(s0: State, s: State, dir: string) returns (t: State)
    requires Leads(s0, s, None)
    ensures Leads(s0, t, None) && t.procs == s.procs && Entry(t, dir) == None && FileOf(t, dir) == None
    ensures t.calls == s.calls + [Call(dir, false, None, Returned)]
    ensures var kill := KillOf(s, |s.calls|, dir);
            t.log == s.log + [TakenOut(dir, |s.calls|, None, Entry(s, dir))]
                     + (if kill.Some? then [kill.value] else []) + [Cleaned(dir, |s.calls|)]
  {
    LeadsOn(s0, s, BeginStop(dir), None);
    t := TakesAndKills(s0, Apply(s, BeginStop(dir)), |s.calls|, None);
  }
}
