/** Over every run of the Watchdog model: a process whose bash or noted application runs is registered, about to
    be killed, or dropped, and the first event that touches its entry decides which. What can still reach a
    dropped process is app.pid. */
module WatchdogReach {
  import opened Wrappers
  import opened Watchdog
  import opened WatchdogRuns
  import opened WatchdogRaces
  import opened WatchdogFailures
  import opened WatchdogSignals

  // ---------------------------------------------------------------- The first touch

  /** Event k put q, which still runs, into the entry of the directory: its launch while its bash runs, and the
      note of its number after that. */
  ghost predicate PutIn(log: seq<Event>, k: nat, dir: string, q: nat) {
    && k < |log| && (log[k].Launched? || log[k].Touched?) && log[k].dir == dir && log[k].proc == q
    && if log[k].Launched? then Ended(q) !in log else log[k].site.PidStore?
  }

  ghost predicate UntouchedSince(log: seq<Event>, k: nat, dir: string) {
    forall m | k < m < |log| :: !Touches(log[m], dir)
  }

  /** Event f is the first after k to touch the entry of the directory. */
  ghost predicate FirstTouch(log: seq<Event>, k: nat, dir: string, f: nat) {
    k < f < |log| && Touches(log[f], dir) && forall m | k < m < f :: !Touches(log[m], dir)
  }

  lemma {:induction false} SomeFirstTouch(log: seq<Event>, k: nat, dir: string, n: nat) returns (f: nat)
    requires k < n < |log| && Touches(log[n], dir)
    ensures FirstTouch(log, k, dir, f)
    decreases n
  {
    if m :| k < m < n && Touches(log[m], dir) {
      f := SomeFirstTouch(log, k, dir, m);
    } else {
      f := n;
    }
  }

  lemma FirstTouchFindsIt(log: seq<Event>, k: nat, dir: string, q: nat, f: nat)
    requires LogGood(log) && PutIn(log, k, dir, q) && FirstTouch(log, k, dir, f)
    ensures Before(log[f]) == Some(q)
  {
    assert StandsSince(log, f, dir, q, k);
    FoundWasLeft(log, f, q);
  }

  /** The event is a start that found no run.sh, a launch over the entry, an unchecked change by the goroutine
      of another process, or the process's own watcher that found its number dead. */
  predicate Drops(e: Event, q: nat) {
    || e.Cleared? || e.Launched?
    || (e.Touched? && e.proc != q && (e.site.HealthStore? || e.site.SettleDelete? || e.site.HealthDelete?))
    || (e.Touched? && e.proc == q && e.site.WatchDelete?)
  }

  /** The first touch of a process that runs is a take-out, or drops it. */
  lemma FirstTouchTakesOrDrops(log: seq<Event>, k: nat, dir: string, q: nat, f: nat)
    requires LogGood(log) && PutIn(log, k, dir, q) && FirstTouch(log, k, dir, f)
    ensures log[f].TakenOut? || Drops(log[f], q)
    ensures log[k].Launched? && log[f].Touched? && Drops(log[f], q) ==> log[f].proc != q
  {
    FirstTouchFindsIt(log, k, dir, q, f);
    assert log[..f] <= log;
    if log[f].Touched? {
      assert FitsAt(log, f);
      if log[k].Touched? { assert log[..f][k] == log[k] && log[..f][k] in log[..f]; }
      if !Drops(log[f], q) && log[f].proc != q { CheckedSitesAreOwn(log, f); }
    }
  }

  /** Nothing puts q there later. */
  lemma PutInLast(log: seq<Event>, k: nat, dir: string, q: nat, m: nat)
    requires LogGood(log) && PutIn(log, k, dir, q)
    requires m < |log| && Touches(log[m], dir) && Left(log[m]) == Some(q)
    ensures m <= k
  {
    assert log[..m] <= log;
    if log[m].Touched? {
      StoresOnce(log, m);
      if log[k].Touched? { StoresOnce(log, k); }
    } else if log[k].Launched? {
      LaunchedOnce(log, k, m);
    } else {
      var j := CheckedStoreIsUndisturbed(log, k);
      LaunchedOnce(log, j, m);
    }
  }

  lemma TakenAfterPutIn(log: seq<Event>, k: nat, dir: string, q: nat, t: nat)
    requires LogGood(log) && PutIn(log, k, dir, q) && t < |log| && log[t].TakenOut? && log[t].victim == Some(q)
    ensures k < t && log[t].dir == dir
  {
    var j := FoundWasLaunched(log, t);
    if log[k].Launched? {
      LaunchedOnce(log, j, k);
    } else {
      var j' := CheckedStoreIsUndisturbed(log, k);
      LaunchedOnce(log, j, j');
    }
  }

  /** So q is taken out by the first touch or never. */
  lemma TakenIsFirst(log: seq<Event>, k: nat, dir: string, q: nat, f: nat, t: nat)
    requires LogGood(log) && PutIn(log, k, dir, q) && FirstTouch(log, k, dir, f)
    requires t < |log| && log[t].TakenOut? && log[t].victim == Some(q)
    ensures t == f
  {
    TakenAfterPutIn(log, k, dir, q, t);
    FoundWasLeft(log, t, q);
    var m: nat :| StandsSince(log, t, dir, q, m);
    PutInLast(log, k, dir, q, m);
    assert Touches(log[t], dir);
  }

  lemma RegisteredExactly(s: State, q: nat, k: nat)
    requires Good(s) && q < |s.procs| && PutIn(s.log, k, s.procs[q].dir, q)
    ensures IsCurrent(s, q) <==> UntouchedSince(s.log, k, s.procs[q].dir)
  {
    var dir := s.procs[q].dir;
    EntryWasLeft(s.log, dir, q);
    if UntouchedSince(s.log, k, dir) {
      assert LeftAt(s.log, dir, q, k);
    } else if IsCurrent(s, q) {
      var m: nat :| LeftAt(s.log, dir, q, m);
      PutInLast(s.log, k, dir, q, m);
    }
  }

  lemma DroppedIsLeftAlone(s: State, k: nat, q: nat, f: nat)
    requires Good(s) && q < |s.procs| && PutIn(s.log, k, s.procs[q].dir, q)
    requires FirstTouch(s.log, k, s.procs[q].dir, f) && !s.log[f].TakenOut?
    ensures Before(s.log[f]) == Some(q) && Drops(s.log[f], q) && !IsCurrent(s, q)
    ensures forall c | 0 <= c < |s.calls| :: !Victim(s.calls[c], q)
    ensures forall e | e in s.log && e.KillTried? :: e.proc != q
  {
    var dir := s.procs[q].dir;
    FirstTouchFindsIt(s.log, k, dir, q, f);
    FirstTouchTakesOrDrops(s.log, k, dir, q, f);
    RegisteredExactly(s, q, k);
    forall c: nat | c < |s.calls| ensures !Victim(s.calls[c], q) {
      if Victim(s.calls[c], q) {
        assert CallGood(s.log, c, s.calls[c]);
        var e :| e in s.log && e.TakenOut? && e.dir == s.calls[c].dir && e.call == c && e.victim == Some(q);
        var t :| 0 <= t < |s.log| && s.log[t] == e;
        TakenIsFirst(s.log, k, dir, q, f, t);
      }
    }
    forall e | e in s.log && e.KillTried? ensures e.proc != q {
      var i :| 0 <= i < |s.log| && s.log[i] == e;
      var t := KillFollowsTakeOut(s.log, i);
      if e.proc == q { TakenIsFirst(s.log, k, dir, q, f, t); }
    }
  }

  // ---------------------------------------------------------------- Every process taken out is doomed

  ghost predicate TakenAreDoomed(s: State) {
    forall e | e in s.log && e.TakenOut? && e.victim.Some? :: Doomed(s, e.call, e.victim.value)
  }

  lemma NewTakeOut(s: State, a: Action, e: Event)
    requires RegistryGood(s) && e in Apply(s, a).log && e !in s.log && e.TakenOut? && e.victim.Some?
    ensures Doomed(Apply(s, a), e.call, e.victim.value)
  {
    match a
    case Step(c, found, launches) => if c < |s.calls| { SteppedTakeOut(s, c, found, launches, e); }
    case Run(p, m) => if p < |s.procs| { MovedTakesNothing(s, p, m, e); }
    case _ =>
  }

  lemma SteppedTakeOut(s: State, c: nat, found: Found, launches: bool, e: Event)
    requires RegistryGood(s) && c < |s.calls|
    requires e in Stepped(s, c, found, launches).log && e !in s.log && e.TakenOut? && e.victim.Some?
    ensures Doomed(Stepped(s, c, found, launches), e.call, e.victim.value)
  {
  }

  lemma MovedTakesNothing(s: State, p: nat, m: Move, e: Event)
    requires p < |s.procs| && e in Moved(s, p, m).log && e !in s.log
    ensures !e.TakenOut?
  {
    MovedGrows(s, p, m);
    NewAtTheEnd(s.log, Moved(s, p, m).log, e);
  }

  lemma {:induction false} AlwaysDoomedOnceTaken(acts: seq<Action>)
    ensures TakenAreDoomed(Exec(Initial, acts))
  {
    if acts != [] {
      var s, a := Exec(Initial, acts[..|acts| - 1]), acts[|acts| - 1];
      AlwaysDoomedOnceTaken(acts[..|acts| - 1]);
      AlwaysGood(acts[..|acts| - 1]);
      forall e | e in Apply(s, a).log && e.TakenOut? && e.victim.Some?
        ensures Doomed(Apply(s, a), e.call, e.victim.value)
      {
        if e in s.log { DoomedStays(s, a, e.call, e.victim.value); } else { NewTakeOut(s, a, e); }
      }
    }
  }

  /** A kill of a process that was put in and still runs has hit it. */
  lemma TriedWhileRunningHits(log: seq<Event>, k: nat, dir: string, q: nat, i: nat)
    requires LogGood(log) && PutIn(log, k, dir, q) && i < |log| && log[i].KillTried? && log[i].proc == q
    ensures log[i].hit
  {
    var t := KillFollowsTakeOut(log, i);
    TakenAfterPutIn(log, k, dir, q, t);
    KillHitsWhen(log, t, i);
    assert log[..i] <= log;
    assert log[..t][k] == log[k] && log[..t][k] in log[..t];
  }

  lemma DoomedIsHeldOrHit(s: State, k: nat, c: nat, q: nat, named: Named)
    requires LogGood(s.log) && Doomed(s, c, q) && PutIn(s.log, k, s.procs[q].dir, q) && Hits(s.procs[q])
    ensures HeldForKill(s, q) || HitIn(s.log, q, named)
  {
    if !Victim(s.calls[c], q) {
      var hit :| KillTried(c, q, hit) in s.log;
      var i: nat :| i < |s.log| && s.log[i] == KillTried(c, q, hit);
      TriedWhileRunningHits(s.log, k, s.procs[q].dir, q, i);
      assert AimsAt(s.log[i], q, named) && Hit(s.log[i]);
    }
  }

  // ---------------------------------------------------------------- Registered, doomed, or left to app.pid

  /** The first event to touch the entry since k was no take-out. */
  ghost predicate Dropped(log: seq<Event>, k: nat, dir: string) {
    exists f: nat :: FirstTouch(log, k, dir, f) && !log[f].TakenOut?
  }

  lemma SomePutIn(s: State, q: nat) returns (k: nat)
    requires Good(s) && q < |s.procs| && (Ended(q) !in s.log || NotedIn(s.log, q))
    ensures PutIn(s.log, k, s.procs[q].dir, q) && Tracked(s, q) && Hits(s.procs[q])
    ensures Ended(q) !in s.log <==> s.log[k].Launched?
  {
    assert Linked(s.log, q, s.procs[q]) && ProcGood(s.procs[q]);
    if Ended(q) !in s.log {
      var e :| e in s.log && e.Launched? && e.dir == s.procs[q].dir && e.proc == q;
      k :| 0 <= k < |s.log| && s.log[k] == e;
    } else {
      k := NotedOfDir(s, q);
    }
  }

  lemma NotedOfDir(s: State, q: nat) returns (k: nat)
    requires Good(s) && q < |s.procs| && NotedIn(s.log, q)
    ensures k < |s.log| && s.log[k].Touched? && s.log[k].proc == q && s.log[k].site.PidStore?
    ensures s.log[k].dir == s.procs[q].dir
  {
    assert s.log[..|s.log|] == s.log;
    k := NotedAt(s.log, |s.log|, q);
    var j := CheckedStoreIsUndisturbed(s.log, k);
    assert Linked(s.log, q, s.procs[q]);
    var e :| e in s.log && e.Launched? && e.dir == s.procs[q].dir && e.proc == q;
    var i: nat :| i < |s.log| && s.log[i] == e;
    LaunchedOnce(s.log, i, j);
  }

  /** The number of a bash is in app.pid exactly if nothing has touched that file since the launch. */
  lemma BashIsFiledExactly(s: State, k: nat, q: nat)
    requires Good(s) && q < |s.procs| && PutIn(s.log, k, s.procs[q].dir, q) && s.log[k].Launched?
    ensures FileOf(s, s.procs[q].dir) == Some(Bash(q)) <==>
            forall n | k < n < |s.log| :: !TouchesFile(s.log[n], s.procs[q].dir)
  {
    var dir := s.procs[q].dir;
    NamedWasWritten(s.log, dir, Bash(q));
    if FileOf(s, dir) == Some(Bash(q)) {
      var m: nat :| WrittenAt(s.log, dir, Bash(q), m);
      LaunchedOnce(s.log, m, k);
    } else {
      assert !WrittenAt(s.log, dir, Bash(q), k);
    }
  }

  /** For every run, and every process whose bash is still running or that has a number noted. It is
      registered exactly if nothing has touched its entry since its launch, or since that note. Nothing that
      may still happen ever kills it exactly if the first event that did touch its entry was no take-out,
      app.pid does not name it and cannot any more, and no stop has killed it by that file; while bash runs,
      the file names it exactly if nothing has touched the file since the launch. The first event then found
      it and dropped it: a start without run.sh, a launch over it, an unchecked store or delete by another
      process, or its own watcher. It is then not registered, no call's victim, and no kill of its record has
      been tried. */
  lemma RunningExactly(acts: seq<Action>, q: nat) returns (k: nat)
    requires q < |Exec(Initial, acts).procs|
    requires Ended(q) !in Exec(Initial, acts).log || NotedIn(Exec(Initial, acts).log, q)
    ensures var s, dir := Exec(Initial, acts), Exec(Initial, acts).procs[q].dir;
            && PutIn(s.log, k, dir, q) && (Ended(q) !in s.log <==> s.log[k].Launched?)
            && (IsCurrent(s, q) <==> UntouchedSince(s.log, k, dir))
            && (!CanBeHit(s, q, NumberOf(s, q)) <==>
                  && Dropped(s.log, k, dir) && !Filed(s, dir, NumberOf(s, q))
                  && !KilledByFile(s.log, NumberOf(s, q)))
            && (s.log[k].Launched? ==>
                  (Filed(s, dir, NumberOf(s, q)) <==> forall n | k < n < |s.log| :: !TouchesFile(s.log[n], dir)))
    ensures var s, dir := Exec(Initial, acts), Exec(Initial, acts).procs[q].dir;
            forall f: nat | FirstTouch(s.log, k, dir, f) && !s.log[f].TakenOut? ::
              && Before(s.log[f]) == Some(q) && Drops(s.log[f], q) && !IsCurrent(s, q)
              && (forall c | 0 <= c < |s.calls| :: !Victim(s.calls[c], q))
              && (forall e | e in s.log && e.KillTried? :: e.proc != q)
  {
    var s := Exec(Initial, acts);
    AlwaysGood(acts);
    k := SomePutIn(s, q);
    RegisteredExactly(s, q, k);
    ReachedExactly(acts, q);
    assert Linked(s.log, q, s.procs[q]);
    if s.log[k].Launched? { BashIsFiledExactly(s, k, q); }
    if Dropped(s.log, k, s.procs[q].dir) {
      DroppedIsFiled(s, k, q);
    } else {
      KeptIsHeldOrHit(acts, k, q);
    }
    forall f: nat | FirstTouch(s.log, k, s.procs[q].dir, f) && !s.log[f].TakenOut?
      ensures Before(s.log[f]) == Some(q) && Drops(s.log[f], q) && !IsCurrent(s, q)
      ensures forall c | 0 <= c < |s.calls| :: !Victim(s.calls[c], q)
      ensures forall e | e in s.log && e.KillTried? :: e.proc != q
    {
      DroppedIsLeftAlone(s, k, q, f);
    }
  }

  lemma DroppedIsFiled(s: State, k: nat, q: nat)
    requires Good(s) && q < |s.procs| && PutIn(s.log, k, s.procs[q].dir, q) && Dropped(s.log, k, s.procs[q].dir)
    ensures !HeldForKill(s, q) && (HitIn(s.log, q, NumberOf(s, q)) <==> KilledByFile(s.log, NumberOf(s, q)))
  {
    var f: nat :| FirstTouch(s.log, k, s.procs[q].dir, f) && !s.log[f].TakenOut?;
    DroppedIsLeftAlone(s, k, q, f);
    assert forall i | 0 <= i < |s.log| :: s.log[i] in s.log;
    if KilledByFile(s.log, NumberOf(s, q)) {
      var i :| 0 <= i < |s.log| && s.log[i].FileKill? && s.log[i].named == NumberOf(s, q) && s.log[i].hit;
      assert AimsAt(s.log[i], q, NumberOf(s, q)) && Hit(s.log[i]);
    }
  }

  lemma KeptIsHeldOrHit(acts: seq<Action>, k: nat, q: nat)
    requires q < |Exec(Initial, acts).procs| && Hits(Exec(Initial, acts).procs[q])
    requires PutIn(Exec(Initial, acts).log, k, Exec(Initial, acts).procs[q].dir, q)
    requires !Dropped(Exec(Initial, acts).log, k, Exec(Initial, acts).procs[q].dir)
    ensures HeldForKill(Exec(Initial, acts), q)
            || HitIn(Exec(Initial, acts).log, q, NumberOf(Exec(Initial, acts), q))
  {
    var s, dir := Exec(Initial, acts), Exec(Initial, acts).procs[q].dir;
    AlwaysGood(acts);
    RegisteredExactly(s, q, k);
    if n :| k < n < |s.log| && Touches(s.log[n], dir) {
      var f := SomeFirstTouch(s.log, k, dir, n);
      AlwaysDoomedOnceTaken(acts);
      FirstTouchFindsIt(s.log, k, dir, q, f);
      assert s.log[f] in s.log;
      DoomedIsHeldOrHit(s, k, s.log[f].call, q, NumberOf(s, q));
    }
  }
}
