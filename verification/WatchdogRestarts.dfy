/** Over every run of the Watchdog model: when a watchdog begins a restart, how often, and when a service
    that was stopped comes back. What a restart that has begun can run into is in WatchdogRaces. */
module WatchdogRestarts {
  import opened Wrappers
  import opened Watchdog
  import opened WatchdogRuns

  /** A watchdog begins a restart only if nothing has touched the registry entry since its own process was
      launched: no later launch, no stop, no other watchdog. And no stop has tried to kill that process, found
      in its entry or by its bash's number in app.pid. */
  lemma RestartIsNeverStale(acts: seq<Action>, i: nat)
    requires i < |Exec(Initial, acts).log| && Exec(Initial, acts).log[i].RestartBegun?
    ensures var log := Exec(Initial, acts).log;
            var d, p := log[i].dir, log[i].proc;
            && (exists k :: 0 <= k < i && log[k].Launched? && log[k].dir == d && log[k].proc == p
                            && forall m | k < m < i :: !Touches(log[m], d))
            && NeverSignalled(log[..i], p)
  {
    AlwaysGood(acts);
    NeverStale(Exec(Initial, acts).log, i);
  }

  lemma NeverStale(log: seq<Event>, i: nat)
    requires LogGood(log) && i < |log| && log[i].RestartBegun?
    ensures exists k :: 0 <= k < i && log[k].Launched? && log[k].dir == log[i].dir && log[k].proc == log[i].proc
                        && forall m | k < m < i :: !Touches(log[m], log[i].dir)
    ensures NeverSignalled(log[..i], log[i].proc)
  {
    var before := log[..i];
    assert FitsAt(log, i);
    var k: nat :| LaunchedAt(before, log[i].dir, log[i].proc, k);
    assert log[k] == before[k] && forall m | k < m < i :: log[m] == before[m];
  }

  /** The watchers of background, delegating and health-checked services announce a restart, but it never
      comes: they clear the registry entry that the restart then looks for. */
  lemma WatchersNeverRestart(acts: seq<Action>, p: nat)
    requires p < |Exec(Initial, acts).procs|
    requires Exec(Initial, acts).procs[p].pc == BackingOff && Exec(Initial, acts).procs[p].mode != Blocking
    ensures var s := Exec(Initial, acts);
            Apply(s, Run(p, BackoffOver)) == s.(procs := s.procs[p := s.procs[p].(pc := Gone)])
  {
    AlwaysGood(acts);
    assert !Untouched(Exec(Initial, acts), p);
  }

  /** A process counts at most one restart, its own. So the service never gives up, and the backoff is
      always the first entry of the schedule. */
  lemma BackoffNeverGrows(acts: seq<Action>)
    ensures var s := Exec(Initial, acts);
            && (forall p | 0 <= p < |s.procs| :: s.procs[p].restartCount <= 1)
            && (forall i | 0 <= i < |s.log| :: !s.log[i].GivenUp?)
            && (forall i | 0 <= i < |s.log| && s.log[i].BackoffBegun? :: s.log[i].delay == BACKOFF_SCHEDULE[0])
  {
    AlwaysGood(acts);
    var s := Exec(Initial, acts);
    forall p | 0 <= p < |s.procs| ensures s.procs[p].restartCount <= 1 { assert ProcGood(s.procs[p]); }
    forall i | 0 <= i < |s.log|
      ensures !s.log[i].GivenUp? && (s.log[i].BackoffBegun? ==> s.log[i].delay == BACKOFF_SCHEDULE[0])
    {
      assert FitsAt(s.log, i);
    }
  }

  // ---------------------------------------------------------------- When a stopped service comes back

  ghost predicate Starting(s: State, dir: string) {
    exists c :: 0 <= c < |s.calls| && Underway(s, c) && s.calls[c].dir == dir
  }

  /** A start is under way, or the registered process may still be restarted. */
  ghost predicate Revivable(s: State, dir: string) {
    Starting(s, dir) || (dir in s.registry && CanRestart(s, s.registry[dir]))
  }

  /** A process of the directory was launched between the two states. */
  ghost predicate LaunchedBetween(s: State, t: State, dir: string) {
    exists p :: |s.procs| <= p < |t.procs| && t.procs[p].dir == dir
  }

  /** From a crash, or from the pause after one, to the restart's first step. */
  lemma CrashingRestarts(s0: State, s: State, p: nat, dir: Option<string>) returns (t: State)
    requires Leads(s0, s, dir) && ProcsGood(s) && CanRestart(s, p)
    ensures Leads(s0, t, dir)
    ensures |t.calls| == |s.calls| + 1 && t.calls[|s.calls|] == Call(s.procs[p].dir, true, Some(p), Begun)
            && t.calls[..|s.calls|] == s.calls
            && |t.procs| == |s.procs| && RestartsIn(t.log) == RestartsIn(s.log) + 1
  {
    t := s;
    if s.procs[p].pc == Waiting {
      LeadsOn(s0, s, Run(p, Exit(true)), dir);
      t := Moved(s, p, Exit(true));
      CrashBacksOff(s, p);
    }
    LeadsOn(s0, t, Run(p, BackoffOver), dir);
    BackoffRestarts(t, p);
    t := Moved(t, p, BackoffOver);
  }

  lemma CrashBacksOff(s: State, p: nat)
    requires ProcsGood(s) && CanRestart(s, p) && s.procs[p].pc == Waiting
    ensures var t := Moved(s, p, Exit(true));
            && CanRestart(t, p) && t.procs[p].pc == BackingOff && t.procs[p].dir == s.procs[p].dir
            && |t.procs| == |s.procs| && t.calls == s.calls && RestartsIn(t.log) == RestartsIn(s.log)
  {
    assert ProcGood(s.procs[p]);
    RestartsInOne(s.log, Ended(p));
    RestartsInOne(s.log + [Ended(p)], BackoffBegun(p, BACKOFF_SCHEDULE[0]));
  }

  lemma BackoffRestarts(s: State, p: nat)
    requires CanRestart(s, p) && s.procs[p].pc == BackingOff
    ensures var t := Moved(s, p, BackoffOver);
            && t.calls == s.calls + [Call(s.procs[p].dir, true, Some(p), Begun)]
            && |t.procs| == |s.procs| && RestartsIn(t.log) == RestartsIn(s.log) + 1
  {
    RestartsInOne(s.log, RestartBegun(s.procs[p].dir, p, |s.calls|));
  }

  /** From a process that can be restarted to its successor. */
  lemma RevivingLaunches(s0: State, s: State, p: nat, dir: Option<string>) returns (t: State)
    requires Leads(s0, s, dir) && ProcsGood(s) && CanRestart(s, p)
    ensures Leads(s0, t, dir)
    ensures |t.procs| == |s.procs| + 1 && t.procs[|s.procs|] == Proc(s.procs[p].dir, Blocking, None, 0, Waiting)
            && CanRestart(t, |s.procs|) && RestartsIn(t.log) == RestartsIn(s.log) + 1
            && |t.calls| == |s.calls| + 1 && t.calls[|s.calls|].restarts == Some(p) && t.calls[..|s.calls|] == s.calls
  {
    var s1 := CrashingRestarts(s0, s, p, dir);
    t := FinishingLaunches(s0, s1, |s.calls|, dir);
  }

  lemma RevivableLaunches(s: State, dir: string)
    requires RegistryGood(s) && ProcsGood(s) && Revivable(s, dir)
    ensures exists t :: Leads(s, t, Some(dir)) && LaunchedBetween(s, t, dir)
  {
    LeadsNowhere(s, Some(dir));
    var t;
    if Starting(s, dir) {
      var c :| 0 <= c < |s.calls| && Underway(s, c) && s.calls[c].dir == dir;
      t := FinishingLaunches(s, s, c, Some(dir));
    } else {
      t := RevivingLaunches(s, s, s.registry[dir], Some(dir));
    }
    assert t.procs[|s.procs|].dir == dir;
    assert LaunchedBetween(s, t, dir);
  }

  /** What cannot come back stays away until it is started. */
  lemma NobodyStarts(s: State, a: Action, dir: string)
    requires !Revivable(s, dir) && a != BeginStart(dir)
    ensures !Starting(Apply(s, a), dir)
  {
    match a
    case Step(c, found, launches) => if c < |s.calls| { SteppedStarts(s, c, found, launches, dir); }
    case Run(p, m) => if p < |s.procs| { MovedStarts(s, p, m, dir); }
    case _ => assert forall c | 0 <= c < |s.calls| && Underway(Apply(s, a), c) :: Underway(s, c);
  }

  lemma SteppedStarts(s: State, c: nat, found: Found, launches: bool, dir: string)
    requires !Starting(s, dir) && c < |s.calls|
    ensures !Starting(Stepped(s, c, found, launches), dir)
  {
    var t := Stepped(s, c, found, launches);
    SteppedGrows(s, c, found, launches);
    if Underway(t, c) { StillUnderway(s, c, found, launches); }
    assert forall d | 0 <= d < |s.calls| && Underway(t, d) && t.calls[d].dir == dir :: Underway(s, d);
  }

  lemma StillUnderway(s: State, c: nat, found: Found, launches: bool)
    requires c < |s.calls| && Underway(Stepped(s, c, found, launches), c)
    ensures Underway(s, c) && Stepped(s, c, found, launches).calls[c].dir == s.calls[c].dir
  {
  }

  lemma MovedStarts(s: State, p: nat, m: Move, dir: string)
    requires !Revivable(s, dir) && p < |s.procs|
    ensures !Starting(Moved(s, p, m), dir)
  {
    var t := Moved(s, p, m);
    if m.BackoffOver? && s.procs[p].pc == BackingOff && IsCurrent(s, p) {
      assert CanRestart(s, p) && s.procs[p].dir != dir;
    }
    forall c | 0 <= c < |t.calls| ensures !(Underway(t, c) && t.calls[c].dir == dir) {
      if c < |s.calls| { assert !(Underway(s, c) && s.calls[c].dir == dir); }
    }
  }

  lemma StaysAway(s: State, a: Action, dir: string)
    requires !Starting(s, dir)
    ensures |s.procs| <= |Apply(s, a).procs| && !LaunchedBetween(s, Apply(s, a), dir)
    ensures forall p | 0 <= p < |s.procs| :: Apply(s, a).procs[p].dir == s.procs[p].dir
  {
    match a
    case Step(c, found, launches) =>
      if c < |s.calls| { SteppedGrows(s, c, found, launches); assert Underway(s, c) ==> s.calls[c].dir != dir; }
    case Run(p, m) => if p < |s.procs| { MovedGrows(s, p, m); }
    case _ =>
  }

  lemma StaysUnrevivable(s: State, a: Action, dir: string)
    requires RegistryGood(s) && ProcsGood(s) && !Revivable(s, dir) && a != BeginStart(dir)
    ensures !Revivable(Apply(s, a), dir)
  {
    var t := Apply(s, a);
    NobodyStarts(s, a, dir);
    StaysAway(s, a, dir);
    RegistryKept(s, a);
    if dir in t.registry && CanRestart(t, t.registry[dir]) {
      var p := t.registry[dir];
      assert t.procs[p].dir == dir;
      if p < |s.procs| { ChancesShrink(s, a, p); }
      assert false;
    }
  }

  lemma {:induction false} NothingLaunched(s: State, acts: seq<Action>, dir: string)
    requires Good(s) && !Revivable(s, dir) && NoStart(acts, Some(dir))
    ensures var t := Exec(s, acts);
            && Good(t) && !Revivable(t, dir)
            && |s.procs| <= |t.procs| && !LaunchedBetween(s, t, dir)
            && forall p | 0 <= p < |s.procs| :: t.procs[p].dir == s.procs[p].dir
  {
    if acts != [] {
      var front, a := acts[..|acts| - 1], acts[|acts| - 1];
      var t := Exec(s, front);
      NothingLaunched(s, front, dir);
      GoodKept(t, a);
      StaysAway(t, a, dir);
      StaysUnrevivable(t, a, dir);
    }
  }

  /** Without a new start, a service gets a new process exactly if a start is already under way or its
      registered process may still be restarted. */
  lemma RevivedExactly(past: seq<Action>, dir: string)
    ensures var s := Exec(Initial, past);
            Revivable(s, dir) <==> exists acts :: NoStart(acts, Some(dir)) && LaunchedBetween(s, Exec(s, acts), dir)
  {
    var s := Exec(Initial, past);
    AlwaysGood(past);
    if Revivable(s, dir) {
      RevivableLaunches(s, dir);
      var t :| Leads(s, t, Some(dir)) && LaunchedBetween(s, t, dir);
      var acts :| NoStart(acts, Some(dir)) && Exec(s, acts) == t;
      assert LaunchedBetween(s, Exec(s, acts), dir);
    } else {
      forall acts | NoStart(acts, Some(dir)) ensures !LaunchedBetween(s, Exec(s, acts), dir) {
        NothingLaunched(s, acts, dir);
      }
    }
  }

  /** So once a stop has taken the entry out, the service stays down until the next start, unless a start
      was already under way: that one, an automatic restart included, still launches. */
  lemma StopHoldsExactly(past: seq<Action>, c: nat, found: Found, launches: bool)
    requires c < |Exec(Initial, past).calls|
    requires !Exec(Initial, past).calls[c].start && Exec(Initial, past).calls[c].stage == Stopping
    ensures var dir, t := Exec(Initial, past).calls[c].dir, Apply(Exec(Initial, past), Step(c, found, launches));
            Starting(t, dir) <==> exists acts :: NoStart(acts, Some(dir)) && LaunchedBetween(t, Exec(t, acts), dir)
  {
    var acts := past + [Step(c, found, launches)];
    assert acts[..|past|] == past;
    RevivedExactly(acts, Exec(Initial, past).calls[c].dir);
  }

  // ---------------------------------------------------------------- No limit

  /** After n restarts the newest process is registered and can be restarted in turn, and all calls but the
      first were restarts. */
  ghost predicate CrashedTimes(s: State, dir: string, n: nat) {
    && RestartsIn(s.log) == n && |s.procs| == |s.calls| == n + 1
    && s.procs[n] == Proc(dir, Blocking, None, 0, Waiting) && CanRestart(s, n)
    && (forall c | 1 <= c < |s.calls| :: s.calls[c].restarts.Some?)
  }

  /** No limit holds over a service's life: one start can be followed by any number of automatic restarts. */
  lemma {:induction false} RestartsAreUnlimited(dir: string, n: nat) returns (s: State)
    ensures Reachable(s) && CrashedTimes(s, dir, n)
  {
    if n == 0 {
      s := FirstStart(dir);
    } else {
      var before := RestartsAreUnlimited(dir, n - 1);
      s := OneMoreCrash(before, dir, n - 1);
    }
  }

  lemma FirstStart(dir: string) returns (s: State)
    ensures Reachable(s) && CrashedTimes(s, dir, 0)
  {
    LeadsNowhere(Initial, None);
    LeadsOn(Initial, Initial, BeginStart(dir), None);
    s := FinishingLaunches(Initial, Apply(Initial, BeginStart(dir)), 0, None);
  }

  lemma ReachableProcs(s: State)
    requires Reachable(s)
    ensures ProcsGood(s)
  {
    ReachableIsGood(s);
  }

  lemma AllRestarts(before: seq<Call>, after: seq<Call>)
    requires |after| == |before| + 1 && after[..|before|] == before && after[|before|].restarts.Some?
    requires forall c | 1 <= c < |before| :: before[c].restarts.Some?
    ensures forall c | 1 <= c < |after| :: after[c].restarts.Some?
  {
    assert forall c | 0 <= c < |before| :: after[c] == after[..|before|][c];
  }

  lemma OneMoreCrash(s: State, dir: string, n: nat) returns (t: State)
    requires Reachable(s) && CrashedTimes(s, dir, n)
    ensures Reachable(t) && CrashedTimes(t, dir, n + 1)
  {
    ReachableProcs(s);
    t := RevivingLaunches(Initial, s, n, None);
    AllRestarts(s.calls, t.calls);
  }
}
