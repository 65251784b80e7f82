/** Over every run of the Watchdog model: what a restart that has begun can run into, what overlapping
    starts leave behind, which goroutines interfere with a process that is not theirs, and when the stop of
    a service really kills it. */
module WatchdogRaces {
  import opened Wrappers
  import opened Watchdog
  import opened WatchdogRuns
  import opened WatchdogRestarts

  // ---------------------------------------------------------------- Reading the log

  /** Event m left q in the entry of the directory, and nothing has touched it between m and i. */
  ghost predicate StandsSince(log: seq<Event>, i: nat, dir: string, q: nat, m: nat) {
    && m < i <= |log| && Touches(log[m], dir) && Left(log[m]) == Some(q)
    && forall k | m < k < i :: !Touches(log[k], dir)
  }

  /** What an event that touches an entry found there. */
  function Before(e: Event): Option<nat>
    requires e.Launched? || e.TakenOut? || e.Cleared? || e.Touched?
  {
    if e.TakenOut? then e.victim else e.over
  }

  lemma FoundWasLeft(log: seq<Event>, i: nat, q: nat)
    requires LogGood(log) && i < |log| && (log[i].Launched? || log[i].TakenOut? || log[i].Cleared? || log[i].Touched?)
    ensures Before(log[i]) == Some(q) <==> exists m :: StandsSince(log, i, log[i].dir, q, m)
  {
    var prefix, dir := log[..i], log[i].dir;
    assert FitsAt(log, i);
    EntryWasLeft(prefix, dir, q);
    forall m: nat ensures LeftAt(prefix, dir, q, m) <==> StandsSince(log, i, dir, q, m) {
      assert forall k | 0 <= k < i :: prefix[k] == log[k];
    }
  }

  /** Whoever is left in an entry was launched there before, and processes are numbered as they launch. */
  lemma LeftWasLaunched(log: seq<Event>, m: nat) returns (j: nat)
    requires LogGood(log) && m < |log| && (log[m].Launched? || log[m].Touched?)
    ensures j <= m && log[j].Launched? && log[j].dir == log[m].dir && log[j].proc == log[m].proc
  {
    if log[m].Launched? {
      j := m;
    } else {
      var prefix := log[..m];
      assert FitsAt(log, m);
      var e :| e in prefix && e.Launched? && e.dir == log[m].dir && e.proc == log[m].proc;
      j :| 0 <= j < m && prefix[j] == e;
      assert log[j] == prefix[j];
    }
  }

  lemma LaunchOrder(log: seq<Event>, i: nat, j: nat)
    requires LogGood(log) && i < |log| && j < |log| && log[i].Launched? && log[j].Launched?
    ensures log[i].proc < log[j].proc <==> i < j
  {
    if i < j {
      assert FitsAt(log, j) && log[..j][i] in log[..j];
    } else if j < i {
      assert FitsAt(log, i) && log[..i][j] in log[..i];
    }
  }

  // ---------------------------------------------------------------- A restart against a newer deploy

  /** Another process of the directory was launched after the restart began, and its entry still stands. */
  ghost predicate NewerStands(log: seq<Event>, b: nat, i: nat, dir: string, q: nat) {
    && (exists j :: b < j < i && i <= |log| && log[j].Launched? && log[j].dir == dir && log[j].proc == q)
    && (exists m :: b < m && StandsSince(log, i, dir, q, m))
  }

  /** The call that restarts p finds an entry newer than p, and takes it out, deletes it or launches over it, exactly if
      another process was launched in the directory since the restart began and its entry still stands. The
      check of isCurrentProcess before the call does not cover the call's own steps. */
  lemma NewerExactly(log: seq<Event>, b: nat, i: nat)
    requires LogGood(log) && b < i < |log| && log[b].RestartBegun?
    requires (log[i].TakenOut? || log[i].Cleared? || log[i].Launched?) && log[i].dir == log[b].dir
    ensures Before(log[i]).Some? && Before(log[i]).value > log[b].proc <==>
            exists q: nat :: NewerStands(log, b, i, log[i].dir, q)
  {
    if Before(log[i]).Some? && Before(log[i]).value > log[b].proc {
      NewerWasLaunched(log, b, i);
    }
    forall q: nat | NewerStands(log, b, i, log[i].dir, q) ensures Before(log[i]) == Some(q) && q > log[b].proc {
      LaunchedIsNewer(log, b, i, q);
    }
  }

  lemma OwnLaunch(log: seq<Event>, b: nat) returns (k: nat)
    requires LogGood(log) && b < |log| && log[b].RestartBegun?
    ensures k < b && log[k].Launched? && log[k].dir == log[b].dir && log[k].proc == log[b].proc
    ensures forall m | k < m < b :: !Touches(log[m], log[b].dir)
  {
    NeverStale(log, b);
    k :| 0 <= k < b && log[k].Launched? && log[k].dir == log[b].dir && log[k].proc == log[b].proc
         && forall m | k < m < b :: !Touches(log[m], log[b].dir);
  }

  lemma LaunchedIsNewer(log: seq<Event>, b: nat, i: nat, q: nat)
    requires LogGood(log) && b < i < |log| && log[b].RestartBegun?
    requires (log[i].TakenOut? || log[i].Cleared? || log[i].Launched?) && log[i].dir == log[b].dir
    requires NewerStands(log, b, i, log[i].dir, q)
    ensures Before(log[i]) == Some(q) && q > log[b].proc
  {
    var k := OwnLaunch(log, b);
    var j :| b < j < i && log[j].Launched? && log[j].dir == log[i].dir && log[j].proc == q;
    LaunchOrder(log, k, j);
    FoundWasLeft(log, i, q);
  }

  lemma NewerWasLaunched(log: seq<Event>, b: nat, i: nat)
    requires LogGood(log) && b < i < |log| && log[b].RestartBegun?
    requires (log[i].TakenOut? || log[i].Cleared? || log[i].Launched?) && log[i].dir == log[b].dir
    requires Before(log[i]).Some? && Before(log[i]).value > log[b].proc
    ensures NewerStands(log, b, i, log[i].dir, Before(log[i]).value)
  {
    var j, m := NewerLaunch(log, b, i, Before(log[i]).value);
    assert StandsSince(log, i, log[i].dir, Before(log[i]).value, m);
  }

  lemma NewerLaunch(log: seq<Event>, b: nat, i: nat, q: nat) returns (j: nat, m: nat)
    requires LogGood(log) && b < i < |log| && log[b].RestartBegun?
    requires (log[i].TakenOut? || log[i].Cleared? || log[i].Launched?) && log[i].dir == log[b].dir
    requires Before(log[i]) == Some(q) && q > log[b].proc
    ensures b < j < i && log[j].Launched? && log[j].dir == log[i].dir && log[j].proc == q
    ensures b < m && StandsSince(log, i, log[i].dir, q, m)
  {
    var k := OwnLaunch(log, b);
    FoundWasLeft(log, i, q);
    m :| StandsSince(log, i, log[i].dir, q, m);
    j := LeftWasLaunched(log, m);
    LaunchOrder(log, k, j);
    AfterTheRestart(log, b, k, j);
    AfterTheRestart(log, b, k, m);
  }

  lemma AfterTheRestart(log: seq<Event>, b: nat, k: nat, j: nat)
    requires k < b < |log| && k < j < |log| && log[b].RestartBegun? && Touches(log[j], log[b].dir)
    requires forall m | k < m < b :: !Touches(log[m], log[b].dir)
    ensures b < j
  {
  }

  /** For every run: a restart's call hits a newer entry exactly in that case. */
  lemma RestartHitsNewerExactly(acts: seq<Action>, i: nat)
    requires i < |Exec(Initial, acts).log|
    requires var e := Exec(Initial, acts).log[i];
             (e.TakenOut? || e.Cleared? || e.Launched?) && e.restarts.Some?
    ensures var log := Exec(Initial, acts).log;
            var e := log[i];
            exists b: nat :: b < i && log[b] == RestartBegun(e.dir, e.restarts.value, e.call)
                        && (Before(e).Some? && Before(e).value > e.restarts.value <==>
                              exists q: nat :: NewerStands(log, b, i, e.dir, q))
  {
    AlwaysGood(acts);
    var log := Exec(Initial, acts).log;
    var b := RestartWasBegun(log, i);
    NewerExactly(log, b, i);
  }

  lemma RestartWasBegun(log: seq<Event>, i: nat) returns (b: nat)
    requires LogGood(log) && i < |log| && (log[i].TakenOut? || log[i].Cleared? || log[i].Launched?)
             && log[i].restarts.Some?
    ensures b < i && log[b] == RestartBegun(log[i].dir, log[i].restarts.value, log[i].call)
  {
    var prefix := log[..i];
    assert FitsAt(log, i);
    b :| 0 <= b < i && prefix[b] == RestartBegun(log[i].dir, log[i].restarts.value, log[i].call);
    assert log[b] == prefix[b];
  }

  // ---------------------------------------------------------------- Overlapping starts

  lemma OwnTakeOut(log: seq<Event>, i: nat) returns (k: nat)
    requires LogGood(log) && i < |log| && log[i].Launched?
    ensures k < i && log[k].TakenOut? && log[k].dir == log[i].dir && log[k].call == log[i].call
  {
    var prefix := log[..i];
    assert FitsAt(log, i);
    var e :| e in prefix && e.TakenOut? && e.dir == log[i].dir && e.call == log[i].call;
    k :| 0 <= k < i && prefix[k] == e;
    assert log[k] == prefix[k];
  }

  lemma FoundSince(log: seq<Event>, k: nat, i: nat, q: nat)
    requires LogGood(log) && k < i < |log| && log[i].Launched? && log[k].TakenOut? && log[k].dir == log[i].dir
    ensures log[i].over == Some(q) <==> exists m :: k < m && StandsSince(log, i, log[i].dir, q, m)
  {
    FoundWasLeft(log, i, q);
    assert Touches(log[k], log[i].dir) && Left(log[k]) == None;
  }

  /** A process stores its record at most once, after its bash has ended. */
  lemma StoresOnce(log: seq<Event>, n: nat)
    requires LogGood(log) && n < |log| && log[n].Touched? && Stores(log[n].site)
    ensures Ended(log[n].proc) in log[..n]
    ensures forall m | 0 <= m < n && log[m].Touched? && Stores(log[m].site) :: log[m].proc != log[n].proc
  {
    var prefix := log[..n];
    assert FitsAt(log, n);
    forall m | 0 <= m < n && log[m].Touched? && Stores(log[m].site) ensures log[m].proc != log[n].proc {
      assert prefix[m] in prefix;
    }
  }

  /** A checked store finds nothing that has touched the entry since the launch. */
  lemma CheckedStoreIsUndisturbed(log: seq<Event>, n: nat) returns (k: nat)
    requires LogGood(log) && n < |log| && log[n].Touched? && (log[n].site.PidStore? || log[n].site.GroupStore?)
    ensures k < n && log[k].Launched? && log[k].dir == log[n].dir && log[k].proc == log[n].proc
    ensures forall m | k < m < n :: !Touches(log[m], log[n].dir)
  {
    var prefix := log[..n];
    assert FitsAt(log, n);
    k :| LaunchedAt(prefix, log[n].dir, log[n].proc, k);
    assert log[k] == prefix[k] && forall m | k < m < n :: log[m] == prefix[m];
  }

  lemma NotedAt(log: seq<Event>, i: nat, q: nat) returns (n: nat)
    requires i <= |log| && NotedIn(log[..i], q)
    ensures n < i && log[n].Touched? && log[n].proc == q && log[n].site.PidStore?
  {
    var prefix := log[..i];
    var e :| e in prefix && e.Touched? && e.proc == q && e.site == PidStore;
    n :| 0 <= n < i && prefix[n] == e;
    assert log[n] == prefix[n];
  }

  // ---------------------------------------------------------------- What a kill hits

  /** The take-out that gave a call its victim. */
  lemma KillFollowsTakeOut(log: seq<Event>, i: nat) returns (t: nat)
    requires LogGood(log) && i < |log| && log[i].KillTried?
    ensures t < i && log[t].TakenOut? && log[t].call == log[i].call && log[t].victim == Some(log[i].proc)
  {
    var prefix := log[..i];
    assert FitsAt(log, i);
    var d :| TakenBy(prefix, d, log[i].call, Some(log[i].proc));
    var e :| e in prefix && e.TakenOut? && e.dir == d && e.call == log[i].call && e.victim == Some(log[i].proc);
    t :| 0 <= t < i && prefix[t] == e;
    assert log[t] == prefix[t];
  }

  /** Whoever a launch or a take-out finds was launched before. */
  lemma FoundWasLaunched(log: seq<Event>, i: nat) returns (k: nat)
    requires LogGood(log) && i < |log| && (log[i].Launched? || log[i].TakenOut?) && Before(log[i]).Some?
    ensures k < i && log[k].Launched? && log[k].dir == log[i].dir && log[k].proc == Before(log[i]).value
  {
    FoundWasLeft(log, i, Before(log[i]).value);
    var m: nat :| StandsSince(log, i, log[i].dir, Before(log[i]).value, m);
    k := LeftWasLaunched(log, m);
  }

  lemma LaunchedOnce(log: seq<Event>, i: nat, j: nat)
    requires LogGood(log) && i < |log| && j < |log| && log[i].Launched? && log[j].Launched?
             && log[i].proc == log[j].proc
    ensures i == j
  {
    LaunchOrder(log, i, j);
    LaunchOrder(log, j, i);
  }

  /** A process number that is noted at all was noted before the process was taken out. */
  lemma NotedBeforeTakeOut(log: seq<Event>, t: nat, n: nat)
    requires LogGood(log) && t < |log| && log[t].TakenOut? && n < |log|
    requires log[n].Touched? && log[n].site.PidStore? && log[t].victim == Some(log[n].proc)
    ensures n < t
  {
    var k := CheckedStoreIsUndisturbed(log, n);
    var j := FoundWasLaunched(log, t);
    LaunchedOnce(log, j, k);
    assert Touches(log[t], log[n].dir);
  }

  /** A kill hits exactly if the process's bash is still there, or the process was noted by number before it
      was taken out. */
  lemma KillHitsWhen(log: seq<Event>, t: nat, i: nat)
    requires LogGood(log) && t < i < |log| && log[i].KillTried? && log[t].TakenOut?
             && log[t].victim == Some(log[i].proc)
    ensures log[i].hit <==> Ended(log[i].proc) !in log[..i] || NotedIn(log[..t], log[i].proc)
  {
    var q := log[i].proc;
    assert FitsAt(log, i);
    if NotedIn(log[..i], q) {
      var n := NotedAt(log, i, q);
      NotedBeforeTakeOut(log, t, n);
      assert log[..t][n] in log[..t];
    } else {
      assert forall e | e in log[..t] :: e in log[..i];
    }
  }

  /** For every run: a stop or start reaches the process it took out exactly if the process's bash is still
      there when it is killed, or the process had a number noted when it was taken out. */
  lemma KillHitsExactly(acts: seq<Action>, i: nat)
    requires i < |Exec(Initial, acts).log| && Exec(Initial, acts).log[i].KillTried?
    ensures var log := Exec(Initial, acts).log;
            var q := log[i].proc;
            exists t: nat :: t < i && log[t].TakenOut? && log[t].call == log[i].call && log[t].victim == Some(q)
                             && (log[i].hit <==> Ended(q) !in log[..i] || NotedIn(log[..t], q))
  {
    AlwaysGood(acts);
    var log := Exec(Initial, acts).log;
    var t := KillFollowsTakeOut(log, i);
    KillHitsWhen(log, t, i);
  }

  /** For every run: a stop or start kills by app.pid only if it has just found no entry, and then the number
      that was last written there. A bash it finds there was launched in the directory, and is hit exactly if
      it still runs. */
  lemma FileKillExactly(acts: seq<Action>, i: nat)
    requires i < |Exec(Initial, acts).log| && Exec(Initial, acts).log[i].FileKill?
    ensures var log := Exec(Initial, acts).log;
            FileKillFits(log, i) && forall q | log[i].named == Bash(q) :: BashKillFits(log, i, q)
  {
    AlwaysGood(acts);
    var log := Exec(Initial, acts).log;
    FileKillComes(log, i);
    if log[i].named.Bash? { BashKillHits(log, i); }
  }

  /** The kill at i comes right after a miss of the same call, and goes to what the file holds. */
  ghost predicate FileKillFits(log: seq<Event>, i: nat)
    requires i < |log| && log[i].FileKill?
  {
    var e := log[i];
    && 0 < i && log[i - 1].TakenOut? && log[i - 1].dir == e.dir && log[i - 1].call == e.call
    && log[i - 1].victim.None? && (exists k: nat :: WrittenAt(log[..i], e.dir, e.named, k))
  }

  ghost predicate BashKillFits(log: seq<Event>, i: nat, q: nat)
    requires i < |log| && log[i].FileKill?
  {
    && (exists k :: 0 <= k < i && log[k].Launched? && log[k].dir == log[i].dir && log[k].proc == q)
    && (log[i].hit <==> Ended(q) !in log[..i])
  }

  lemma FileKillComes(log: seq<Event>, i: nat)
    requires LogGood(log) && i < |log| && log[i].FileKill?
    ensures FileKillFits(log, i)
  {
    assert FitsAt(log, i);
    assert log[i - 1] == log[..i][i - 1];
    NamedWasWritten(log[..i], log[i].dir, log[i].named);
  }

  lemma BashKillHits(log: seq<Event>, i: nat)
    requires LogGood(log) && i < |log| && log[i].FileKill? && log[i].named.Bash?
    ensures BashKillFits(log, i, log[i].named.proc)
  {
    assert FitsAt(log, i);
    var _ := BashWasWritten(log, i, log[i].named.proc);
  }

  /** What the call can see in the entry: it has a process number exactly if one was noted, and its bash
      runs exactly if it has not ended. */
  lemma EntryShows(acts: seq<Action>, q: nat)
    requires q < |Exec(Initial, acts).procs|
    ensures var s := Exec(Initial, acts);
            && (s.procs[q].mode == Delegating && s.procs[q].extPid.Some? <==> NotedIn(s.log, q))
            && (s.procs[q].pc == Waiting <==> Ended(q) !in s.log)
  {
    AlwaysGood(acts);
    var s := Exec(Initial, acts);
    assert Linked(s.log, q, s.procs[q]) && ProcGood(s.procs[q]);
  }

  /** The kill aims at the process's record, or at the given number in app.pid. */
  predicate AimsAt(e: Event, q: nat, named: Named) {
    (e.KillTried? && e.proc == q) || (e.FileKill? && e.named == named)
  }

  predicate Hit(e: Event)
    requires e.KillTried? || e.FileKill?
  {
    e.hit
  }

  /** So no stop and no deploy ever reaches a background service or a health-checked one through its record:
      once that is stored, every kill that finds it there misses, and so does one that finds the number of its
      bash in app.pid. What is left is the number of a child or application in app.pid. */
  lemma WatchedRecordsAreNeverHit(acts: seq<Action>, m: nat, i: nat)
    requires m < i < |Exec(Initial, acts).log|
    requires var e := Exec(Initial, acts).log[m];
             e.Touched? && (e.site.GroupStore? || e.site.HealthStore?)
    requires var q := Exec(Initial, acts).log[m].proc; AimsAt(Exec(Initial, acts).log[i], q, Bash(q))
    ensures !Hit(Exec(Initial, acts).log[i])
  {
    AlwaysGood(acts);
    MissesAfterStore(Exec(Initial, acts).log, m, i);
  }

  lemma MissesAfterStore(log: seq<Event>, m: nat, i: nat)
    requires LogGood(log) && m < i < |log| && log[m].Touched? && (log[m].site.GroupStore? || log[m].site.HealthStore?)
    requires AimsAt(log[i], log[m].proc, Bash(log[m].proc))
    ensures !Hit(log[i])
  {
    StoresOnce(log, m);
    assert FitsAt(log, i);
    assert log[..m] <= log[..i] && Ended(log[m].proc) in log[..i];
    if NotedIn(log[..i], log[m].proc) {
      var n := NotedAt(log, i, log[m].proc);
      StoresOnce(log, n);
    }
  }

  // ---------------------------------------------------------------- What a stop takes out it tries to kill

  /** The call still has the process to kill, or has tried. */
  ghost predicate Doomed(s: State, c: nat, p: nat) {
    c < |s.calls| && p < |s.procs| && (Victim(s.calls[c], p) || exists hit :: KillTried(c, p, hit) in s.log)
  }

  lemma DoomedStays(s: State, a: Action, c: nat, p: nat)
    requires Doomed(s, c, p)
    ensures Doomed(Apply(s, a), c, p)
  {
    var t := Apply(s, a);
    LogGrows(s, a);
    if hit :| KillTried(c, p, hit) in s.log { assert KillTried(c, p, hit) in t.log; }
    if Victim(s.calls[c], p) {
      match a
      case Step(d, found, launches) =>
        if d < |s.calls| { SteppedGrows(s, d, found, launches); }
        if d == c {
          assert t.log[|s.log|] == KillTried(c, p, Hits(s.procs[p])) && t.log[|s.log|] in t.log;
        }
      case Run(q, m) => if q < |s.procs| { MovedGrows(s, q, m); }
      case _ =>
    }
  }

  /** Whatever happens after a call has taken a process out of the registry, the call does not get past its
      kill without trying to kill that process. */
  lemma {:induction false} TakenOutIsTried(past: seq<Action>, c: nat, found: Found, launches: bool, future: seq<Action>)
    requires c < |Exec(Initial, past).calls| && Exec(Initial, past).calls[c].stage == Stopping
    requires Exec(Initial, past).calls[c].dir in Exec(Initial, past).registry
    ensures var s := Exec(Initial, past);
            var p, t := s.registry[s.calls[c].dir], Exec(Apply(s, Step(c, found, launches)), future);
            c < |t.calls| && (t.calls[c].stage == Killing(p) || exists hit :: KillTried(c, p, hit) in t.log)
  {
    AlwaysGood(past);
    var s := Exec(Initial, past);
    AlwaysDoomed(Apply(s, Step(c, found, launches)), future, c, s.registry[s.calls[c].dir]);
  }

  lemma {:induction false} AlwaysDoomed(s: State, future: seq<Action>, c: nat, p: nat)
    requires Doomed(s, c, p)
    ensures Doomed(Exec(s, future), c, p)
  {
    if future != [] {
      AlwaysDoomed(s, future[..|future| - 1], c, p);
      DoomedStays(Exec(s, future[..|future| - 1]), future[|future| - 1], c, p);
    }
  }

  // ---------------------------------------------------------------- What an overwritten process is in for

  /** For every run: a launch overwrites the entry of another process exactly if that one was stored there
      between the call's own take-out and its launch. No later kill of its record or its bash ever hits; and if
      its bash was still running it was not hit before either, so both processes run on. */
  lemma OverlapExactly(acts: seq<Action>, i: nat, q: nat)
    requires i < |Exec(Initial, acts).log| && Exec(Initial, acts).log[i].Launched?
    ensures var log := Exec(Initial, acts).log;
            && (exists k: nat :: k < i && log[k].TakenOut? && log[k].dir == log[i].dir && log[k].call == log[i].call
                  && (log[i].over == Some(q) <==> exists m :: k < m && StandsSince(log, i, log[i].dir, q, m)))
            && (log[i].over == Some(q) ==>
                  forall j | 0 <= j < |log| && AimsAt(log[j], q, Bash(q)) ::
                    Hit(log[j]) ==> j < i && Ended(q) in log[..i])
  {
    AlwaysGood(acts);
    var log := Exec(Initial, acts).log;
    var k := OwnTakeOut(log, i);
    FoundSince(log, k, i, q);
    if log[i].over == Some(q) {
      forall j | 0 <= j < |log| && AimsAt(log[j], q, Bash(q)) && Hit(log[j]) ensures j < i && Ended(q) in log[..i] {
        if log[j].KillTried? { OverwrittenIsMissed(log, i, j); } else { OverwrittenFileIsGone(log, i, j); }
      }
    }
  }

  /** The number of q's bash is in app.pid only as q's launch left it there. */
  lemma BashWasWritten(log: seq<Event>, j: nat, q: nat) returns (k: nat)
    requires LogGood(log) && j < |log| && log[j].FileKill? && log[j].named == Bash(q)
    ensures 0 < j && log[j - 1].TakenOut? && log[j - 1].dir == log[j].dir && log[j - 1].victim.None?
    ensures k < j - 1 && log[k].Launched? && log[k].dir == log[j].dir && log[k].proc == q
    ensures forall n | k < n < j :: !TouchesFile(log[n], log[j].dir)
  {
    var prefix := log[..j];
    assert FitsAt(log, j);
    NamedWasWritten(prefix, log[j].dir, Bash(q));
    k :| WrittenAt(prefix, log[j].dir, Bash(q), k);
    assert log[j - 1] == prefix[j - 1] && log[k] == prefix[k];
    assert forall n | k < n < j :: log[n] == prefix[n];
  }

  /** The overwriting launch has rewritten app.pid. A kill by that file before it found no entry, so q came back
      by an unchecked store. */
  lemma OverwrittenFileIsGone(log: seq<Event>, i: nat, j: nat)
    requires LogGood(log) && i < |log| && log[i].Launched? && log[i].over.Some?
    requires j < |log| && log[j].FileKill? && log[j].named == Bash(log[i].over.value)
    ensures j < i && Ended(log[i].over.value) in log[..i]
  {
    var q := log[i].over.value;
    var k := BashWasWritten(log, j, q);
    var k' := FoundWasLaunched(log, i);
    LaunchedOnce(log, k, k');
    assert TouchesFile(log[i], log[j].dir);
    FoundWasLeft(log, i, q);
    var m: nat :| StandsSince(log, i, log[i].dir, q, m);
    assert Touches(log[j - 1], log[i].dir) && Left(log[j - 1]) == None;
    if log[m].Launched? { LaunchedOnce(log, k, m); }
    StoresOnce(log, m);
    assert log[..m] <= log[..i];
  }

  lemma OverwrittenIsMissed(log: seq<Event>, i: nat, j: nat)
    requires LogGood(log) && i < |log| && log[i].Launched? && log[i].over.Some?
    requires j < |log| && log[j].KillTried? && log[j].proc == log[i].over.value && log[j].hit
    ensures j < i && Ended(log[j].proc) in log[..i]
  {
    var t := KillFollowsTakeOut(log, j);
    if t > i {
      LateTakeOutMisses(log, i, t, j);
    } else {
      var m := StoredAfterTakeOut(log, t, i);
      StoresOnce(log, m);
      assert log[..m] <= log[..i];
      if j > i { LateKillMisses(log, t, m, j); }
    }
  }

  /** A kill that comes after the process stored its record unchecked misses. */
  lemma LateKillMisses(log: seq<Event>, t: nat, m: nat, j: nat)
    requires LogGood(log) && t < m < j < |log| && log[t].TakenOut? && log[t].victim.Some?
    requires log[m].Touched? && Stores(log[m].site) && log[m].proc == log[t].victim.value
    requires log[j].KillTried? && log[j].proc == log[m].proc
    ensures !log[j].hit
  {
    StoresOnce(log, m);
    KillHitsWhen(log, t, j);
    assert log[..m] <= log[..j];
    StoredAfterTakeOutIsUnnoted(log, t, m);
  }

  /** A process found by a take-out after a launch had overwritten it came back by an unchecked store. */
  lemma LateTakeOutMisses(log: seq<Event>, i: nat, t: nat, j: nat)
    requires LogGood(log) && i < t < j < |log| && log[i].Launched? && log[i].over.Some?
    requires log[t].TakenOut? && log[t].victim == log[i].over && log[j].KillTried? && log[j].proc == log[i].over.value
    ensures !log[j].hit
  {
    var q := log[i].over.value;
    KillHitsWhen(log, t, j);
    var m := StoredAfterOverwrite(log, i, t);
    StoresOnce(log, m);
    assert log[..m] <= log[..j];
    if NotedIn(log[..t], q) {
      var n := NotedAt(log, t, q);
      NotedBeforeOverwrite(log, i, n);
      if n < m { StoresOnce(log, m); } else { StoresOnce(log, n); }
    }
  }

  lemma StoredAfterOverwrite(log: seq<Event>, i: nat, t: nat) returns (m: nat)
    requires LogGood(log) && i < t < |log| && log[i].Launched? && log[i].over.Some?
    requires log[t].TakenOut? && log[t].victim == log[i].over
    ensures i < m < t && log[m].Touched? && Stores(log[m].site) && log[m].proc == log[i].over.value
  {
    var q := log[i].over.value;
    var k := FoundWasLaunched(log, i);
    var k' := FoundWasLaunched(log, t);
    LaunchedOnce(log, k, k');
    LaunchOrder(log, k, i);
    FoundWasLeft(log, t, q);
    m :| StandsSince(log, t, log[t].dir, q, m);
    assert Touches(log[i], log[t].dir) && Left(log[i]) != Some(q);
    if log[m].Launched? { LaunchedOnce(log, k, m); }
  }

  /** A number that is noted at all was noted before the process was overwritten. */
  lemma NotedBeforeOverwrite(log: seq<Event>, i: nat, n: nat)
    requires LogGood(log) && i < |log| && n < |log| && log[i].Launched? && log[i].over.Some?
    requires log[n].Touched? && log[n].site.PidStore? && log[n].proc == log[i].over.value
    ensures n < i
  {
    var k := FoundWasLaunched(log, i);
    var k' := CheckedStoreIsUndisturbed(log, n);
    LaunchedOnce(log, k, k');
    assert Touches(log[i], log[n].dir);
  }

  /** A process that was taken out and is found again at i has stored its record in between. */
  lemma StoredAfterTakeOut(log: seq<Event>, t: nat, i: nat) returns (m: nat)
    requires LogGood(log) && t < i < |log| && log[t].TakenOut? && log[t].victim.Some?
    requires (log[i].Launched? || log[i].TakenOut?) && Before(log[i]) == log[t].victim
    ensures t < m < i && log[m].Touched? && Stores(log[m].site) && log[m].proc == log[t].victim.value
  {
    var q := log[t].victim.value;
    var j := FoundWasLaunched(log, t);
    FoundWasLeft(log, i, q);
    m :| StandsSince(log, i, log[i].dir, q, m);
    var j' := LeftWasLaunched(log, m);
    LaunchedOnce(log, j, j');
    assert Touches(log[t], log[i].dir) && Left(log[t]) == None;
    if log[m].Launched? { LaunchedOnce(log, j, m); }
  }

  lemma StoredAfterTakeOutIsUnnoted(log: seq<Event>, t: nat, m: nat)
    requires LogGood(log) && t < m < |log| && log[t].TakenOut? && log[t].victim.Some?
    requires log[m].Touched? && Stores(log[m].site) && log[m].proc == log[t].victim.value
    ensures !NotedIn(log[..t], log[m].proc)
  {
    if NotedIn(log[..t], log[m].proc) {
      var n := NotedAt(log, t, log[m].proc);
      StoresOnce(log, m);
    }
  }
}
