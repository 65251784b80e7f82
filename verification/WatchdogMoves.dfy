/** Over every reachable state of the Watchdog model: what each stretch of a process's goroutine does to the
    registry, to app.pid and to the process, and what it waits for next. */
module WatchdogMoves {
  import opened Wrappers
  import opened Watchdog
  import opened WatchdogRuns

  /** From s to t the goroutine of p has logged these events and gone on to wait for `pc`. Other processes and
      the calls stay as they are. */
  ghost predicate GoesOn(s: State, t: State, p: nat, events: seq<Event>, pc: Pc) {
    && p < |s.procs| && t.log == s.log + events && t.calls == s.calls
    && |t.procs| == |s.procs| && t.procs[p].pc == pc && t.procs[p].dir == s.procs[p].dir
    && forall q | 0 <= q < |s.procs| && q != p :: t.procs[q] == s.procs[q]
  }

  /** Nothing is registered or unregistered, and no file is written or removed. */
  ghost predicate Untouching(s: State, t: State) {
    t.registry == s.registry && t.files == s.files
  }

  /** In the directory of p the entry and app.pid are these now, and in no other has anything changed. */
  ghost predicate Leaves(s: State, t: State, dir: string, entry: Option<nat>, file: Option<Named>) {
    && Entry(t, dir) == entry && FileOf(t, dir) == file
    && forall d | d != dir :: Entry(t, d) == Entry(s, d) && FileOf(t, d) == FileOf(s, d)
  }

  /** While bash runs, run.sh may write the number of an application into app.pid. */
  lemma RunScriptWrites(s: State, p: nat)
    requires p < |s.procs| && s.procs[p].pc == Waiting
    ensures var t, dir := Apply(s, Run(p, Write)), s.procs[p].dir;
            Leaves(s, t, dir, Entry(s, dir), Some(App(p))) && GoesOn(s, t, p, [Wrote(dir, p)], Waiting)
  {
  }

  /** bash has ended. A crash of the registered process begins the backoff of two seconds; a crash of any other
      ends its goroutine; a clean exit leads to the pause. */
  lemma BashEnds(acts: seq<Action>, p: nat, crashed: bool)
    requires p < |Exec(Initial, acts).procs| && Exec(Initial, acts).procs[p].pc == Waiting
    ensures var s := Exec(Initial, acts);
            var t, current := Apply(s, Run(p, Exit(crashed))), Entry(s, s.procs[p].dir) == Some(p);
            && Untouching(s, t)
            && GoesOn(s, t, p, if crashed && current then [Ended(p), BackoffBegun(p, 2)] else [Ended(p)],
                      if !crashed then Settling else if current then BackingOff else Gone)
  {
    var s := Exec(Initial, acts);
    AlwaysGood(acts);
    assert ProcGood(s.procs[p]);
    assert s.log + [Ended(p)] + [BackoffBegun(p, 2)] == s.log + [Ended(p), BackoffBegun(p, 2)];
  }

  lemma WatchedLeaves(s: State, p: nat, mode: Mode, number: Option<Named>, site: Site)
    requires p < |s.procs| && Stores(site)
    ensures var t, dir := Watched(s, p, mode, number, site), s.procs[p].dir;
            && Leaves(s, t, dir, Some(p), if site.GroupStore? then Some(Child(p)) else FileOf(s, dir))
            && GoesOn(s, t, p, [Touched(dir, p, site, Entry(s, dir))], Watching)
            && t.procs[p].mode == mode && t.procs[p].extPid == number
  {
  }

  lemma ForgottenLeaves(s: State, p: nat)
    requires p < |s.procs|
    ensures var t, dir := GoesTo(Touch(s, p, SettleDelete), p, Gone), s.procs[p].dir;
            Leaves(s, t, dir, None, None) && GoesOn(s, t, p, [Touched(dir, p, SettleDelete, Entry(s, dir))], Gone)
  {
  }

  /** The number that counts is that of a live application. */
  lemma NumberFound(s: State, p: nat, alive: bool)
    requires Good(s) && p < |s.procs| && s.procs[p].pc == Settling
    ensures FindsNumber(s, p, alive) <==>
              && Entry(s, s.procs[p].dir) == Some(p) && alive
              && FileOf(s, s.procs[p].dir).Some? && FileOf(s, s.procs[p].dir).value.App?
  {
    assert Untouched(s, p) ==> FileQuiet(s, p);
  }

  /** After a clean exit and the pause. If p is registered and the number of a live application is in app.pid, p
      is watched by that number. Otherwise, if it is registered and has children, it is watched as a background
      service, and app.pid gets the number of a child. Otherwise, if there is a health.sh, it is watched by that
      and registered, whoever was before. Otherwise the entry and app.pid are removed, whoever's they were. */
  lemma CleanExitIsSorted(acts: seq<Action>, p: nat, alive: bool, children: bool, health: bool)
    requires p < |Exec(Initial, acts).procs| && Exec(Initial, acts).procs[p].pc == Settling
    ensures var s := Exec(Initial, acts);
            var t, dir := Apply(s, Run(p, Settle(alive, children, health))), s.procs[p].dir;
            var current, file, over := Entry(s, dir) == Some(p), FileOf(s, dir), Entry(s, dir);
            if current && file.Some? && file.value.App? && alive then
              && Leaves(s, t, dir, Some(p), file) && GoesOn(s, t, p, [Touched(dir, p, PidStore, over)], Watching)
              && t.procs[p].mode == Delegating && t.procs[p].extPid == file
            else if current && children then
              && Leaves(s, t, dir, Some(p), Some(Child(p)))
              && GoesOn(s, t, p, [Touched(dir, p, GroupStore, over)], Watching)
              && t.procs[p].mode == Background && t.procs[p].extPid == None
            else if health then
              && Leaves(s, t, dir, Some(p), file) && GoesOn(s, t, p, [Touched(dir, p, HealthStore, over)], Watching)
              && t.procs[p].mode == Delegating && t.procs[p].extPid == None
            else
              Leaves(s, t, dir, None, None) && GoesOn(s, t, p, [Touched(dir, p, SettleDelete, over)], Gone)
  {
    var s := Exec(Initial, acts);
    AlwaysGood(acts);
    NumberFound(s, p, alive);
    WatchedLeaves(s, p, Delegating, FileOf(s, s.procs[p].dir), PidStore);
    WatchedLeaves(s, p, Background, None, GroupStore);
    WatchedLeaves(s, p, Delegating, None, HealthStore);
    ForgottenLeaves(s, p);
  }

  lemma DeletedBacksOff(s: State, p: nat, site: Site)
    requires p < |s.procs| && s.procs[p].restartCount == 0 && (site.WatchDelete? || site.HealthDelete?)
    ensures var t, dir := BackOff(Touch(s, p, site), p), s.procs[p].dir;
            && Leaves(s, t, dir, None, FileOf(s, dir))
            && GoesOn(s, t, p, [Touched(dir, p, site, Entry(s, dir)), BackoffBegun(p, 2)], BackingOff)
  {
    var e := Touched(s.procs[p].dir, p, site, Entry(s, s.procs[p].dir));
    assert s.log + [e] + [BackoffBegun(p, 2)] == s.log + [e, BackoffBegun(p, 2)];
  }

  /** A round of a watcher. It ends if the process is no longer registered. When what it watches has died, the
      entry is deleted and the backoff begins; otherwise nothing happens, or health.sh is run. */
  lemma WatcherRound(acts: seq<Action>, p: nat, stable: bool, dead: bool)
    requires p < |Exec(Initial, acts).procs| && Exec(Initial, acts).procs[p].pc == Watching
    ensures var s := Exec(Initial, acts);
            var t, dir := Apply(s, Run(p, Tick(stable, dead))), s.procs[p].dir;
            if Entry(s, dir) != Some(p) then Untouching(s, t) && GoesOn(s, t, p, [], Gone)
            else if s.procs[p].mode == Delegating && s.procs[p].extPid == None then
              Untouching(s, t) && GoesOn(s, t, p, [], Probing)
            else if dead then
              && Leaves(s, t, dir, None, FileOf(s, dir))
              && GoesOn(s, t, p, [Touched(dir, p, WatchDelete, Some(p)), BackoffBegun(p, 2)], BackingOff)
            else t == s
  {
    var s := Exec(Initial, acts);
    AlwaysGood(acts);
    assert ProcGood(s.procs[p]);
    if IsCurrent(s, p) && !HealthWatched(s.procs[p]) && dead { DeletedBacksOff(s, p, WatchDelete); }
  }

  /** health.sh has answered. A failure deletes the entry, whoever's it is, and the backoff begins. */
  lemma HealthVerdict(acts: seq<Action>, p: nat, healthy: bool)
    requires p < |Exec(Initial, acts).procs| && Exec(Initial, acts).procs[p].pc == Probing
    ensures var s := Exec(Initial, acts);
            var t, dir := Apply(s, Run(p, Verdict(healthy))), s.procs[p].dir;
            if healthy then Untouching(s, t) && GoesOn(s, t, p, [], Watching)
            else
              && Leaves(s, t, dir, None, FileOf(s, dir))
              && GoesOn(s, t, p, [Touched(dir, p, HealthDelete, Entry(s, dir)), BackoffBegun(p, 2)], BackingOff)
  {
    var s := Exec(Initial, acts);
    AlwaysGood(acts);
    assert ProcGood(s.procs[p]);
    DeletedBacksOff(s, p, HealthDelete);
  }

  /** The backoff is over. If the process is still registered its goroutine goes over into a start call, and ends
      otherwise. */
  lemma BackoffEnds(acts: seq<Action>, p: nat)
    requires p < |Exec(Initial, acts).procs| && Exec(Initial, acts).procs[p].pc == BackingOff
    ensures var s := Exec(Initial, acts);
            var t, dir := Apply(s, Run(p, BackoffOver)), s.procs[p].dir;
            && Untouching(s, t)
            && if Entry(s, dir) == Some(p) then
                 && t.calls == s.calls + [Call(dir, true, Some(p), Begun)]
                 && GoesOn(s, t.(calls := s.calls), p, [RestartBegun(dir, p, |s.calls|)], Gone)
               else GoesOn(s, t, p, [], Gone)
  {
  }

  /** From s to t the call has logged these events and gone on. */
  ghost predicate CallGoesOn(s: State, t: State, c: nat, events: seq<Event>, stage: Stage) {
    c < |s.calls| && t.log == s.log + events && t.calls == s.calls[c := s.calls[c].(stage := stage)]
  }

  /** The first step of a start. Without a codebase it returns at once. Without a run.sh it returns after it has
      deleted the entry, and has left app.pid and the process alone. Otherwise it goes on to its stop. */
  lemma StartLooksFirst(s: State, c: nat, found: Found, launches: bool)
    requires c < |s.calls| && s.calls[c].start && s.calls[c].stage == Begun
    ensures var t, call := Apply(s, Step(c, found, launches)), s.calls[c];
            && t.procs == s.procs
            && match found
               case NoCodebase => Untouching(s, t) && CallGoesOn(s, t, c, [], Returned)
               case NoRunScript =>
                 && Leaves(s, t, call.dir, None, FileOf(s, call.dir))
                 && CallGoesOn(s, t, c, [Cleared(call.dir, c, call.restarts, Entry(s, call.dir))], Returned)
               case RunScript => Untouching(s, t) && CallGoesOn(s, t, c, [], Stopping)
  {
  }

  /** The last step of a start. A launch makes a record of its own, registers it over whatever is there and
      writes the number of its bash into app.pid; one that fails changes nothing. */
  lemma StartLaunchesLast(s: State, c: nat, found: Found, launches: bool)
    requires c < |s.calls| && s.calls[c].start && s.calls[c].stage == Launching
    ensures var t, call, p := Apply(s, Step(c, found, launches)), s.calls[c], |s.procs|;
            if launches then
              && t.procs == s.procs + [Proc(call.dir, Blocking, None, 0, Waiting)]
              && Leaves(s, t, call.dir, Some(p), Some(Bash(p)))
              && CallGoesOn(s, t, c, [Launched(call.dir, p, c, call.restarts, Entry(s, call.dir))], Returned)
            else Untouching(s, t) && t.procs == s.procs && CallGoesOn(s, t, c, [], Returned)
  {
  }

  /** A stop takes out what is registered. Without an entry it goes by app.pid: it signals a bash that still runs
      or another number that is alive. */
  lemma StopTakesFirst(s: State, c: nat, found: Found, alive: bool)
    requires c < |s.calls| && s.calls[c].stage == Stopping
    ensures var t, call := Apply(s, Step(c, found, alive)), s.calls[c];
            var out, file := TakenOut(call.dir, c, call.restarts, Entry(s, call.dir)), FileOf(s, call.dir);
            && t.procs == s.procs && Leaves(s, t, call.dir, None, file)
            && if Entry(s, call.dir).Some? then CallGoesOn(s, t, c, [out], Killing(Entry(s, call.dir).value))
               else if file.None? then CallGoesOn(s, t, c, [out], Cleaning)
               else
                 var n := file.value;
                 var hit := if n.Bash? then n.proc < |s.procs| && s.procs[n.proc].pc == Waiting else alive;
                 CallGoesOn(s, t, c, [out, FileKill(c, call.dir, n, hit)], Cleaning)
  {
    var call := s.calls[c];
    var out := TakenOut(call.dir, c, call.restarts, Entry(s, call.dir));
    if Entry(s, call.dir).None? && FileOf(s, call.dir).Some? {
      var n := FileOf(s, call.dir).value;
      var kill := FileKill(c, call.dir, n, AliveNumber(s, n, alive));
      assert s.log + [out] + [kill] == s.log + [out, kill];
    }
  }

  /** Then it kills a delegating service by its noted number and any other by bash's group, and removes
      app.pid. */
  lemma StopKillsThen(s: State, c: nat, found: Found, alive: bool)
    requires c < |s.calls|
    ensures var t := Apply(s, Step(c, found, alive));
            match s.calls[c].stage
            case Killing(v) => v < |s.procs| ==>
              && t.procs == s.procs && Untouching(s, t)
              && CallGoesOn(s, t, c, [KillTried(c, v, if s.procs[v].mode == Delegating then s.procs[v].extPid.Some?
                                                      else s.procs[v].pc == Waiting)], Cleaning)
            case Cleaning =>
              && t.procs == s.procs && Leaves(s, t, s.calls[c].dir, Entry(s, s.calls[c].dir), None)
              && CallGoesOn(s, t, c, [Cleaned(s.calls[c].dir, c)], if s.calls[c].start then Launching else Returned)
            case _ => true
  {
  }
}
