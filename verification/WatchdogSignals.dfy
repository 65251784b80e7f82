/** Over every run of the Watchdog model: exactly which process can still be reached by the signals of a stop,
    through its record in the registry or through the number in app.pid. */
module WatchdogSignals {
  import opened Wrappers
  import opened Watchdog
  import opened WatchdogRuns
  import opened WatchdogRaces

  /** Something of the process still runs, as far as the supervisor knows: its bash, or what it watches. */
  predicate Tracked(s: State, q: nat) {
    q < |s.procs| && (s.procs[q].pc == Waiting || s.procs[q].mode != Blocking)
  }

  /** The number such a process goes by: that of its bash, the noted one, or that of a child. */
  function NumberOf(s: State, q: nat): Named
    requires q < |s.procs|
  {
    if s.procs[q].pc == Waiting then Bash(q)
    else if s.procs[q].extPid.Some? then s.procs[q].extPid.value
    else Child(q)
  }

  /** A kill of the process's record, or of the number in app.pid, has hit. */
  ghost predicate HitIn(log: seq<Event>, q: nat, named: Named) {
    exists i :: 0 <= i < |log| && AimsAt(log[i], q, named) && Hit(log[i])
  }

  /** A stop has killed the number, having found it in app.pid. */
  ghost predicate KilledByFile(log: seq<Event>, named: Named) {
    exists i :: 0 <= i < |log| && log[i].FileKill? && log[i].named == named && log[i].hit
  }

  /** Some continuation of the run hits it, or it has been hit already. */
  ghost predicate CanBeHit(s: State, q: nat, named: Named) {
    exists t :: Leads(s, t, None) && HitIn(t.log, q, named)
  }

  /** The registry or a call holds the process, and a kill of its record hits. */
  ghost predicate HeldForKill(s: State, q: nat)
    requires q < |s.procs|
  {
    Hits(s.procs[q]) && (IsCurrent(s, q) || exists c :: 0 <= c < |s.calls| && Victim(s.calls[c], q))
  }

  /** app.pid of the directory holds the number, or a run.sh may still write it there. */
  predicate Filed(s: State, dir: string, named: Named) {
    FileOf(s, dir) == Some(named) || (named.App? && named.proc < |s.procs| && s.procs[named.proc].pc == Waiting)
  }

  // ---------------------------------------------------------------- What nobody holds stays that way

  predicate Unnamed(s: State, named: Named) {
    && named.proc < |s.procs| && FileOf(s, s.procs[named.proc].dir) != Some(named)
    && (!named.Bash? ==> !s.procs[named.proc].pc.Waiting?)
    && (named.Child? ==> !s.procs[named.proc].pc.Settling?)
  }

  ghost predicate Lost(s: State, q: nat, named: Named) {
    && Out(s, q) && Unnamed(s, named)
    && (Hits(s.procs[q]) ==> forall c | 0 <= c < |s.calls| :: !Victim(s.calls[c], q))
  }

  lemma SteppedUnnamed(s: State, c: nat, found: Found, launches: bool, named: Named)
    requires c < |s.calls| && Unnamed(s, named)
    ensures Unnamed(Stepped(s, c, found, launches), named)
  {
    SteppedGrows(s, c, found, launches);
    match s.calls[c].stage
    case Stopping => TakeOutUnnamed(s, c, launches, named);
    case Launching => LaunchUnnamed(s, c, named);
    case _ =>
  }

  lemma TakeOutUnnamed(s: State, c: nat, alive: bool, named: Named)
    requires c < |s.calls| && Unnamed(s, named)
    ensures Unnamed(TakeOut(s, c, alive), named)
  {
  }

  lemma LaunchUnnamed(s: State, c: nat, named: Named)
    requires c < |s.calls| && Unnamed(s, named)
    ensures Unnamed(Launch(s, c), named)
  {
  }

  lemma SettledUnnamed(s: State, p: nat, alive: bool, children: bool, healthScript: bool, named: Named)
    requires p < |s.procs| && s.procs[p].pc.Settling? && Unnamed(s, named)
    ensures Unnamed(Settled(s, p, alive, children, healthScript), named)
  {
  }

  lemma MovedUnnamed(s: State, p: nat, m: Move, named: Named)
    requires p < |s.procs| && Unnamed(s, named)
    ensures Unnamed(Moved(s, p, m), named)
  {
    MovedGrows(s, p, m);
    match m
    case Write =>
    case Settle(alive, children, health) =>
      if s.procs[p].pc.Settling? { SettledUnnamed(s, p, alive, children, health, named); }
    case _ =>
      OtherMovesKeepFiles(s, p, m);
      MovedIsOver(s, p, m, named.proc);
  }

  /** No goroutine goes back to waiting for bash, or to the pause after it without having waited. */
  lemma MovedIsOver(s: State, p: nat, m: Move, q: nat)
    requires p < |s.procs| && q < |s.procs|
    ensures var t := Moved(s, p, m);
            && q < |t.procs| && (t.procs[q].pc.Waiting? ==> s.procs[q].pc.Waiting?)
            && (t.procs[q].pc.Settling? ==> s.procs[q].pc.Settling? || s.procs[q].pc.Waiting?)
  {
    MovedGrows(s, p, m);
  }

  lemma UnnamedStays(s: State, a: Action, named: Named)
    requires Unnamed(s, named)
    ensures Unnamed(Apply(s, a), named)
  {
    match a
    case Step(c, found, launches) => if c < |s.calls| { SteppedUnnamed(s, c, found, launches, named); }
    case Run(p, m) => if p < |s.procs| { MovedUnnamed(s, p, m, named); }
    case _ =>
  }

  /** A process that has been out of the registry is never noted again. */
  lemma HitsShrinks(s: State, a: Action, q: nat)
    requires ProcsGood(s) && Out(s, q) && q < |Apply(s, a).procs| && Hits(Apply(s, a).procs[q])
    ensures Hits(s.procs[q])
  {
    match a
    case Step(c, found, launches) => if c < |s.calls| { SteppedGrows(s, c, found, launches); }
    case Run(p, m) => if p < |s.procs| { MovedGrows(s, p, m); MovedHits(s, p, m, q); }
    case _ =>
  }

  lemma MovedHits(s: State, p: nat, m: Move, q: nat)
    requires p < |s.procs| && Out(s, q) && ProcGood(s.procs[p])
    requires q < |Moved(s, p, m).procs| && Hits(Moved(s, p, m).procs[q])
    ensures Hits(s.procs[q])
  {
    MovedGrows(s, p, m);
  }

  lemma SteppedHits(s: State, c: nat, found: Found, launches: bool)
    requires c < |s.calls|
    ensures var t := Stepped(s, c, found, launches);
            forall i | |s.log| <= i < |t.log| ::
              && (t.log[i].KillTried? ==> t.log[i].proc < |s.procs| && t.log[i].hit == Hits(s.procs[t.log[i].proc]))
              && (t.log[i].KillTried? ==> Victim(s.calls[c], t.log[i].proc))
              && (t.log[i].FileKill? ==> MissedFile(s, c, t.log[i]))
  {
  }

  lemma NewKillsMiss(s: State, a: Action, q: nat, named: Named)
    requires Good(s) && Lost(s, q, named)
    ensures var t := Apply(s, a);
            forall i | |s.log| <= i < |t.log| && AimsAt(t.log[i], q, named) :: !Hit(t.log[i])
  {
    match a
    case Step(c, found, launches) =>
      if c < |s.calls| { SteppedHits(s, c, found, launches); }
    case Run(p, m) => if p < |s.procs| { MovedGrows(s, p, m); }
    case _ =>
  }

  lemma LostStays(s: State, a: Action, q: nat, named: Named)
    requires Good(s) && Lost(s, q, named)
    ensures Lost(Apply(s, a), q, named)
  {
    var t := Apply(s, a);
    StaysOut(s, a, q);
    UnnamedStays(s, a, named);
    if Hits(t.procs[q]) {
      HitsShrinks(s, a, q);
      forall c: nat | c < |t.calls| ensures !Victim(t.calls[c], q) {
        if Victim(t.calls[c], q) && (c < |s.calls| ==> !Victim(s.calls[c], q)) { NewVictimIs(s, a, c, q); }
      }
    }
  }

  lemma {:induction false} LostForever(s: State, acts: seq<Action>, q: nat, named: Named)
    requires Good(s) && Lost(s, q, named)
    ensures var t := Exec(s, acts);
            && Good(t) && Lost(t, q, named) && s.log <= t.log
            && forall i | |s.log| <= i < |t.log| && AimsAt(t.log[i], q, named) :: !Hit(t.log[i])
  {
    if acts != [] {
      var front, a := acts[..|acts| - 1], acts[|acts| - 1];
      LostForever(s, front, q, named);
      var t := Exec(s, front);
      GoodKept(t, a);
      LostStays(t, a, q, named);
      NewKillsMiss(t, a, q, named);
      LogGrows(t, a);
    }
  }

  // ---------------------------------------------------------------- What somebody holds can be hit

  lemma HitAt(s: State, t: State, i: nat, q: nat, named: Named)
    requires Leads(s, t, None) && i < |t.log| && AimsAt(t.log[i], q, named) && Hit(t.log[i])
    ensures CanBeHit(s, q, named)
  {
    assert HitIn(t.log, q, named);
  }

  lemma HeldCanBeHit(s: State, q: nat, named: Named)
    requires q < |s.procs| && HeldForKill(s, q)
    ensures CanBeHit(s, q, named)
  {
    LeadsNowhere(s, None);
    if IsCurrent(s, q) {
      var t := Stop(s, s, s.procs[q].dir);
      HitAt(s, t, |s.log| + 1, q, named);
    } else {
      var c :| 0 <= c < |s.calls| && Victim(s.calls[c], q);
      LeadsOn(s, s, Step(c, RunScript, true), None);
      HitAt(s, Apply(s, Step(c, RunScript, true)), |s.log|, q, named);
    }
  }

  /** A start without run.sh clears the entry and leaves the file, which the next stop then reads. */
  lemma FiledCanBeHit(s0: State, s: State, dir: string, q: nat, named: Named)
    requires Leads(s0, s, None) && FileOf(s, dir) == Some(named) && AliveNumber(s, named, true)
    ensures CanBeHit(s0, q, named)
  {
    var s1 := StartsWithoutRunScript(s0, s, dir);
    var s2 := Stop(s0, s1, dir);
    HitAt(s0, s2, |s1.log| + 1, q, named);
  }

  lemma NamedCanBeHit(s: State, q: nat, named: Named)
    requires named.proc < |s.procs| && Filed(s, s.procs[named.proc].dir, named) && AliveNumber(s, named, true)
    ensures CanBeHit(s, q, named)
  {
    LeadsNowhere(s, None);
    var dir := s.procs[named.proc].dir;
    if FileOf(s, dir) == Some(named) {
      FiledCanBeHit(s, s, dir, q, named);
    } else {
      LeadsOn(s, s, Run(named.proc, Write), None);
      FiledCanBeHit(s, Apply(s, Run(named.proc, Write)), dir, q, named);
    }
  }

  lemma UnheldIsLost(s: State, q: nat)
    requires Good(s) && Tracked(s, q) && NumberOf(s, q).proc < |s.procs|
    requires !HeldForKill(s, q) && !Filed(s, s.procs[NumberOf(s, q).proc].dir, NumberOf(s, q))
    ensures Lost(s, q, NumberOf(s, q))
  {
    assert ProcGood(s.procs[q]);
  }

  // ---------------------------------------------------------------- Noted numbers

  /** A noted number is one that a run.sh of the same directory wrote. */
  ghost predicate NotedIsOfDir(s: State, q: nat)
    requires q < |s.procs|
  {
    var number := s.procs[q].extPid;
    number.Some? ==> number.value.proc < |s.procs| && s.procs[number.value.proc].dir == s.procs[q].dir
  }

  lemma SteppedNoted(s: State, c: nat, found: Found, launches: bool, q: nat)
    requires c < |s.calls| && q < |Stepped(s, c, found, launches).procs| && (q < |s.procs| ==> NotedIsOfDir(s, q))
    ensures NotedIsOfDir(Stepped(s, c, found, launches), q)
  {
    SteppedGrows(s, c, found, launches);
  }

  lemma MovedNoted(s: State, p: nat, m: Move, q: nat)
    requires p < |s.procs| && q < |s.procs| && FilesGood(s) && NotedIsOfDir(s, q)
    ensures q < |Moved(s, p, m).procs| && NotedIsOfDir(Moved(s, p, m), q)
  {
    MovedGrows(s, p, m);
  }

  lemma {:induction false} AlwaysOfDir(acts: seq<Action>, q: nat)
    requires q < |Exec(Initial, acts).procs|
    ensures NotedIsOfDir(Exec(Initial, acts), q)
  {
    if acts != [] {
      var front, a := acts[..|acts| - 1], acts[|acts| - 1];
      var s := Exec(Initial, front);
      AlwaysGood(front);
      if q < |s.procs| { AlwaysOfDir(front, q); }
      match a
      case Step(c, found, launches) => if c < |s.calls| { SteppedNoted(s, c, found, launches, q); }
      case Run(p, m) => if p < |s.procs| { MovedGrows(s, p, m); MovedNoted(s, p, m, q); }
      case _ =>
    }
  }

  // ---------------------------------------------------------------- Exactly these

  lemma NumberIsOfDir(acts: seq<Action>, q: nat)
    requires Tracked(Exec(Initial, acts), q)
    ensures var s := Exec(Initial, acts);
            var named := NumberOf(s, q);
            named.proc < |s.procs| && s.procs[named.proc].dir == s.procs[q].dir && AliveNumber(s, named, true)
  {
    AlwaysGood(acts);
    AlwaysOfDir(acts, q);
    assert ProcGood(Exec(Initial, acts).procs[q]);
  }

  lemma LostCannotBeHit(s: State, q: nat, named: Named)
    requires Good(s) && Lost(s, q, named) && !HitIn(s.log, q, named)
    ensures !CanBeHit(s, q, named)
  {
    forall t | Leads(s, t, None) ensures !HitIn(t.log, q, named) {
      var acts :| NoStart(acts, None) && Exec(s, acts) == t;
      LostForever(s, acts, q, named);
      assert forall i | 0 <= i < |s.log| :: t.log[i] == s.log[i];
    }
  }

  /** For every run, and every process whose bash runs or that is watched after its bash: some continuation
      kills it, or an earlier kill has hit it, exactly if it is registered or about to be killed and its record
      has a bash or a noted number to kill, or app.pid names it, or a run.sh may still write that number there.
      For a background service or a health-checked one the record has nothing to kill. */
  lemma ReachedExactly(acts: seq<Action>, q: nat)
    requires Tracked(Exec(Initial, acts), q)
    ensures var s := Exec(Initial, acts);
            var named := NumberOf(s, q);
            CanBeHit(s, q, named) <==> HitIn(s.log, q, named) || HeldForKill(s, q) || Filed(s, s.procs[q].dir, named)
    ensures var s := Exec(Initial, acts);
            s.procs[q].mode == Background || HealthWatched(s.procs[q]) ==> !HeldForKill(s, q)
  {
    var s := Exec(Initial, acts);
    var named := NumberOf(s, q);
    AlwaysGood(acts);
    NumberIsOfDir(acts, q);
    assert ProcGood(s.procs[q]);
    if HitIn(s.log, q, named) {
      LeadsNowhere(s, None);
    } else if HeldForKill(s, q) {
      HeldCanBeHit(s, q, named);
    } else if Filed(s, s.procs[q].dir, named) {
      NamedCanBeHit(s, q, named);
    } else {
      UnheldIsLost(s, q);
      LostCannotBeHit(s, q, named);
    }
  }

  // ---------------------------------------------------------------- Background services

  ghost predicate BackgroundUnhit(s: State, q: nat)
    requires q < |s.procs|
  {
    s.procs[q].mode == Background ==>
      forall i | 0 <= i < |s.log| && s.log[i].KillTried? && s.log[i].proc == q :: !s.log[i].hit
  }

  lemma SteppedUnhit(s: State, c: nat, found: Found, launches: bool, q: nat)
    requires ProcsGood(s) && c < |s.calls| && q < |s.procs| && BackgroundUnhit(s, q)
    ensures q < |Stepped(s, c, found, launches).procs| && BackgroundUnhit(Stepped(s, c, found, launches), q)
  {
    SteppedGrows(s, c, found, launches);
    SteppedHits(s, c, found, launches);
    assert ProcGood(s.procs[q]);
  }

  /** A process becomes a background service only while untouched, so before any kill. */
  lemma MovedUnhit(s: State, p: nat, m: Move, q: nat)
    requires VictimsGood(s) && p < |s.procs| && q < |s.procs| && BackgroundUnhit(s, q)
    ensures q < |Moved(s, p, m).procs| && BackgroundUnhit(Moved(s, p, m), q)
  {
    MovedGrows(s, p, m);
    if Moved(s, p, m).procs[q].mode == Background && s.procs[q].mode != Background {
      BecomesBackground(s, p, m);
      assert forall i | 0 <= i < |s.log| && s.log[i].KillTried? :: s.log[i] in s.log && s.log[i].proc != q;
    }
  }

  lemma BecomesBackground(s: State, p: nat, m: Move)
    requires p < |s.procs| && p < |Moved(s, p, m).procs|
    requires Moved(s, p, m).procs[p].mode == Background && s.procs[p].mode != Background
    ensures Untouched(s, p)
  {
  }

  lemma {:induction false} AlwaysUnhit(acts: seq<Action>, q: nat)
    requires q < |Exec(Initial, acts).procs|
    ensures BackgroundUnhit(Exec(Initial, acts), q)
  {
    if acts != [] {
      var front, a := acts[..|acts| - 1], acts[|acts| - 1];
      var s := Exec(Initial, front);
      AlwaysGood(front);
      if q < |s.procs| {
        AlwaysUnhit(front, q);
        match a
        case Step(c, found, launches) => if c < |s.calls| { SteppedUnhit(s, c, found, launches, q); }
        case Run(p, m) => if p < |s.procs| { MovedUnhit(s, p, m, q); }
        case _ =>
      } else {
        NewIsBlocking(s, a, q);
      }
    }
  }

  lemma NewIsBlocking(s: State, a: Action, q: nat)
    requires |s.procs| <= q < |Apply(s, a).procs|
    ensures Apply(s, a).procs[q].mode == Blocking
  {
    JustLaunched(s, a, q);
  }

  /** For every run: the child of a background service is killed, in some continuation or already, exactly if
      app.pid names it or a stop has killed it by that file. */
  lemma BackgroundExactly(acts: seq<Action>, q: nat)
    requires q < |Exec(Initial, acts).procs| && Exec(Initial, acts).procs[q].mode == Background
    ensures var s := Exec(Initial, acts);
            CanBeHit(s, q, Child(q)) <==>
              FileOf(s, s.procs[q].dir) == Some(Child(q)) || KilledByFile(s.log, Child(q))
  {
    var s := Exec(Initial, acts);
    AlwaysGood(acts);
    AlwaysUnhit(acts, q);
    ReachedExactly(acts, q);
    assert ProcGood(s.procs[q]);
    if KilledByFile(s.log, Child(q)) {
      var i :| 0 <= i < |s.log| && s.log[i].FileKill? && s.log[i].named == Child(q) && s.log[i].hit;
      assert AimsAt(s.log[i], q, Child(q)) && Hit(s.log[i]);
    }
  }
}
