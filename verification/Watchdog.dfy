/** gosrc/actions/pm.go: application processes, their watchdogs, and the calls that start and stop them, as
    interleaved steps. A process is known by its number in order of launch, which stands for the pointer
    that isCurrentProcess compares. A check of isCurrentProcess and what directly follows it are one step;
    taking an entry out of the registry, killing its process and removing app.pid are three, and the check of
    the health watcher and the delete after its script has run are two. */
module Watchdog {
  import opened Wrappers

  // ---------------------------------------------------------------- States and steps

  datatype Mode = Blocking | Background | Delegating

  /** Where the goroutine of a process is: waiting for bash to end, in the pause after a clean exit, between
      two rounds of a watch loop, waiting for health.sh, in the pause before a restart, or gone. */
  datatype Pc = Waiting | Settling | Watching | Probing | BackingOff | Gone

  /** Whose number app.pid holds: a process's bash, the first child left in its group, or whatever its run.sh
      wrote there. */
  datatype Named = Bash(proc: nat) | Child(proc: nat) | App(proc: nat)

  /** extPid is the number a delegating service is watched by, if it has one. */
  datatype Proc = Proc(dir: string, mode: Mode, extPid: Option<Named>, restartCount: nat, pc: Pc)

  /** Where a StartAppProcess or StopAppProcess call is: nothing done, about to take the old process out,
      about to kill it, about to remove app.pid, about to launch, or returned. */
  datatype Stage = Begun | Stopping | Killing(victim: nat) | Cleaning | Launching | Returned

  /** `restarts` is the process whose watchdog makes the call, None for a deploy or a stop. */
  datatype Call = Call(dir: string, start: bool, restarts: Option<nat>, stage: Stage)

  /** Where a goroutine changes the registry: lines 271, 286, 298, 313, then 333 and 393, then 363. */
  datatype Site = PidStore | GroupStore | HealthStore | SettleDelete | WatchDelete | HealthDelete

  /** `over` and `victim` are what the entry held before. */
  datatype Event =
    | Launched(dir: string, proc: nat, call: nat, restarts: Option<nat>, over: Option<nat>)
    | TakenOut(dir: string, call: nat, restarts: Option<nat>, victim: Option<nat>)
    | Cleared(dir: string, call: nat, restarts: Option<nat>, over: Option<nat>)
    | Touched(dir: string, proc: nat, site: Site, over: Option<nat>)
    | KillTried(call: nat, proc: nat, hit: bool)
    /** A stop that found no entry has signalled the number in app.pid, if that was alive. */
    | FileKill(call: nat, dir: string, named: Named, hit: bool)
    /** A call has removed app.pid. */
    | Cleaned(dir: string, call: nat)
    /** The run.sh of the process has written a number into app.pid. */
    | Wrote(dir: string, proc: nat)
    | Ended(proc: nat)
    | BackoffBegun(proc: nat, delay: nat)
    | GivenUp(proc: nat)
    | RestartBegun(dir: string, proc: nat, call: nat)

  /** `files` is what app.pid of a directory names. */
  datatype State = State(registry: map<string, nat>, files: map<string, Named>, procs: seq<Proc>, calls: seq<Call>,
                         log: seq<Event>)

  datatype Found = NoCodebase | NoRunScript | RunScript

  /** What the goroutine of a process meets next. */
  datatype Move =
    /** bash ends. */
    | Exit(crashed: bool)
    /** run.sh writes the number of a process it has started into app.pid. */
    | Write
    /** After the pause: is the number in app.pid alive, are there children, is there a health.sh. */
    | Settle(alive: bool, children: bool, healthScript: bool)
    | Tick(stable: bool, dead: bool)
    | Verdict(healthy: bool)
    | BackoffOver

  datatype Action =
    | BeginStart(dir: string)
    | BeginStop(dir: string)
    /** The next step of a call: what StartAppProcess finds on disk, and whether the launch succeeds, or the
        number of an application or child in app.pid is alive. */
    | Step(call: nat, found: Found, launches: bool)
    | Run(proc: nat, move: Move)

  const Initial := State(map[], map[], [], [], [])

  const MAX_RESTARTS: nat := 10
  const BACKOFF_SCHEDULE: seq<nat> := [2, 5, 15, 30, 60, 120]

  function Entry(s: State, dir: string): Option<nat> {
    if dir in s.registry then Some(s.registry[dir]) else None
  }

  predicate IsCurrent(s: State, p: nat)
    requires p < |s.procs|
  {
    Entry(s, s.procs[p].dir) == Some(p)
  }

  function With(s: State, p: nat, proc: Proc): State
    requires p < |s.procs|
  {
    s.(procs := s.procs[p := proc])
  }

  function GoesTo(s: State, p: nat, pc: Pc): State
    requires p < |s.procs|
  {
    With(s, p, s.procs[p].(pc := pc))
  }

  predicate Stores(site: Site) {
    site.PidStore? || site.GroupStore? || site.HealthStore?
  }

  predicate Touches(e: Event, dir: string) {
    (e.Launched? || e.TakenOut? || e.Cleared? || e.Touched?) && e.dir == dir
  }

  /** What an event leaves in the entry it touches. */
  function Left(e: Event): Option<nat> {
    if e.Launched? || (e.Touched? && Stores(e.site)) then Some(e.proc) else None
  }

  /** The event writes app.pid or removes it. */
  predicate TouchesFile(e: Event, dir: string) {
    && (e.Launched? || e.Cleaned? || e.Wrote? || (e.Touched? && (e.site.GroupStore? || e.site.SettleDelete?)))
    && e.dir == dir
  }

  /** What such an event leaves in the file. */
  function LeftInFile(e: Event): Option<Named> {
    if e.Launched? then Some(Bash(e.proc))
    else if e.Wrote? then Some(App(e.proc))
    else if e.Touched? && e.site.GroupStore? then Some(Child(e.proc))
    else None
  }

  function FilesAfter(files: map<string, Named>, e: Event): map<string, Named> {
    if e.Launched? || e.Cleaned? || e.Wrote? || (e.Touched? && (e.site.GroupStore? || e.site.SettleDelete?)) then
      if LeftInFile(e).Some? then files[e.dir := LeftInFile(e).value] else files - {e.dir}
    else files
  }

  function RegistryAfter(registry: map<string, nat>, e: Event): map<string, nat> {
    if e.Launched? || e.TakenOut? || e.Cleared? || e.Touched? then
      if Left(e).Some? then registry[e.dir := Left(e).value] else registry - {e.dir}
    else registry
  }

  /** The event happens: it changes the registry entry and the file it touches, if any, and is logged. */
  function Record(s: State, e: Event): State {
    s.(registry := RegistryAfter(s.registry, e), files := FilesAfter(s.files, e), log := s.log + [e])
  }

  function FileOf(s: State, dir: string): Option<Named> {
    if dir in s.files then Some(s.files[dir]) else None
  }

  /** The number is that of a live process. A bash is alive until it has ended; of the others `alive` tells. */
  predicate AliveNumber(s: State, named: Named, alive: bool) {
    if named.Bash? then named.proc < |s.procs| && s.procs[named.proc].pc == Waiting else alive
  }

  /** The goroutine of p stores its record under its directory, or deletes whatever is there. */
  function Touch(s: State, p: nat, site: Site): State
    requires p < |s.procs|
  {
    var dir := s.procs[p].dir;
    Record(s, Touched(dir, p, site, Entry(s, dir)))
  }

  /** The first half of restartWithBackoff. */
  function BackOff(s: State, p: nat): State
    requires p < |s.procs|
  {
    var n := s.procs[p].restartCount + 1;
    if n > MAX_RESTARTS then
      With(Record(s, GivenUp(p)), p, s.procs[p].(restartCount := n, pc := Gone))
    else
      var idx := if n - 1 >= |BACKOFF_SCHEDULE| then |BACKOFF_SCHEDULE| - 1 else n - 1;
      With(Record(s, BackoffBegun(p, BACKOFF_SCHEDULE[idx])), p, s.procs[p].(restartCount := n, pc := BackingOff))
  }

  /** monitorProcess when bash has ended. */
  function Exited(s: State, p: nat, crashed: bool): State
    requires p < |s.procs|
  {
    var ended := Record(s, Ended(p));
    if !crashed then GoesTo(ended, p, Settling)
    else if IsCurrent(s, p) then BackOff(ended, p)
    else GoesTo(ended, p, Gone)
  }

  /** app.pid holds a live number that is not the process's own bash's. */
  predicate FindsNumber(s: State, p: nat, alive: bool)
    requires p < |s.procs|
  {
    var named := FileOf(s, s.procs[p].dir);
    named.Some? && named.value != Bash(p) && AliveNumber(s, named.value, alive) && IsCurrent(s, p)
  }

  /** monitorProcess after a clean exit. The last two branches change the registry without a check. */
  function Settled(s: State, p: nat, alive: bool, children: bool, healthScript: bool): State
    requires p < |s.procs|
  {
    if FindsNumber(s, p, alive) then Watched(s, p, Delegating, FileOf(s, s.procs[p].dir), PidStore)
    else if children && IsCurrent(s, p) then Watched(s, p, Background, None, GroupStore)
    else if healthScript then Watched(s, p, Delegating, None, HealthStore)
    else GoesTo(Touch(s, p, SettleDelete), p, Gone)
  }

  function Watched(s: State, p: nat, mode: Mode, extPid: Option<Named>, site: Site): State
    requires p < |s.procs|
  {
    With(Touch(s, p, site), p, s.procs[p].(mode := mode, extPid := extPid, pc := Watching))
  }

  /** watchHealthScript watches the records that delegate without a process number. */
  predicate HealthWatched(proc: Proc) {
    proc.mode == Delegating && proc.extPid.None?
  }

  /** One round of watchSinglePID or watchProcessGroup, or a round of watchHealthScript up to its script. */
  function Ticked(s: State, p: nat, stable: bool, dead: bool): State
    requires p < |s.procs|
  {
    if !IsCurrent(s, p) then GoesTo(s, p, Gone)
    else
      var rested := if stable && s.procs[p].restartCount > 0 then With(s, p, s.procs[p].(restartCount := 0)) else s;
      if HealthWatched(s.procs[p]) then GoesTo(rested, p, Probing)
      else if dead then BackOff(Touch(rested, p, WatchDelete), p)
      else rested
  }

  /** watchHealthScript after its script: a failure deletes the entry without a new check. */
  function Judged(s: State, p: nat, healthy: bool): State
    requires p < |s.procs|
  {
    if healthy then GoesTo(s, p, Watching) else BackOff(Touch(s, p, HealthDelete), p)
  }

  /** The second half of restartWithBackoff. */
  function Restarted(s: State, p: nat): State
    requires p < |s.procs|
  {
    var dir := s.procs[p].dir;
    if IsCurrent(s, p) then
      GoesTo(Record(s, RestartBegun(dir, p, |s.calls|)), p, Gone).(calls := s.calls + [Call(dir, true, Some(p), Begun)])
    else GoesTo(s, p, Gone)
  }

  /** Whether StopAppProcess reaches anything with its signals. It kills the noted process of a delegating
      record, and nothing without one. Otherwise it looks up bash's process group, and finds it only while
      bash is there. */
  predicate Hits(proc: Proc) {
    if proc.mode == Delegating then proc.extPid.Some? else proc.pc == Waiting
  }

  function At(s: State, c: nat, stage: Stage): State
    requires c < |s.calls|
  {
    s.(calls := s.calls[c := s.calls[c].(stage := stage)])
  }

  /** The entry is taken out; without one the number in app.pid is read, and killed if it is alive. */
  function TakeOut(s: State, c: nat, alive: bool): State
    requires c < |s.calls|
  {
    var call := s.calls[c];
    var out := Record(s, TakenOut(call.dir, c, call.restarts, Entry(s, call.dir)));
    if Entry(s, call.dir).Some? then At(out, c, Killing(Entry(s, call.dir).value))
    else if FileOf(s, call.dir).Some? then
      var named := FileOf(s, call.dir).value;
      At(Record(out, FileKill(c, call.dir, named, AliveNumber(s, named, alive))), c, Cleaning)
    else At(out, c, Cleaning)
  }

  function Kill(s: State, c: nat, victim: nat): State
    requires c < |s.calls|
  {
    At(if victim < |s.procs| then Record(s, KillTried(c, victim, Hits(s.procs[victim]))) else s, c, Cleaning)
  }

  function CleanUp(s: State, c: nat): State
    requires c < |s.calls|
  {
    At(Record(s, Cleaned(s.calls[c].dir, c)), c, if s.calls[c].start then Launching else Returned)
  }

  function Launch(s: State, c: nat): State
    requires c < |s.calls|
  {
    var call := s.calls[c];
    At(Record(s, Launched(call.dir, |s.procs|, c, call.restarts, Entry(s, call.dir))), c, Returned)
      .(procs := s.procs + [Proc(call.dir, Blocking, None, 0, Waiting)])
  }

  /** One step of a StartAppProcess or StopAppProcess call. */
  function Stepped(s: State, c: nat, found: Found, launches: bool): State
    requires c < |s.calls|
  {
    var call := s.calls[c];
    match call.stage
    case Begun =>
      if !call.start || found == RunScript then At(s, c, Stopping)
      else if found == NoCodebase then At(s, c, Returned)
      else At(Record(s, Cleared(call.dir, c, call.restarts, Entry(s, call.dir))), c, Returned)
    case Stopping => TakeOut(s, c, launches)
    case Killing(victim) => Kill(s, c, victim)
    case Cleaning => CleanUp(s, c)
    case Launching => if call.start && launches then Launch(s, c) else At(s, c, Returned)
    case Returned => s
  }

  /** One step of a process's goroutine; a move it does not wait for changes nothing. */
  function Moved(s: State, p: nat, m: Move): State
    requires p < |s.procs|
  {
    match m
    case Exit(crashed) => if s.procs[p].pc == Waiting then Exited(s, p, crashed) else s
    case Write => if s.procs[p].pc == Waiting then Record(s, Wrote(s.procs[p].dir, p)) else s
    case Settle(alive, children, health) =>
      if s.procs[p].pc == Settling then Settled(s, p, alive, children, health) else s
    case Tick(stable, dead) => if s.procs[p].pc == Watching then Ticked(s, p, stable, dead) else s
    case Verdict(healthy) => if s.procs[p].pc == Probing then Judged(s, p, healthy) else s
    case BackoffOver => if s.procs[p].pc == BackingOff then Restarted(s, p) else s
  }

  function Apply(s: State, a: Action): State {
    match a
    case BeginStart(d) => s.(calls := s.calls + [Call(d, true, None, Begun)])
    case BeginStop(d) => s.(calls := s.calls + [Call(d, false, None, Begun)])
    case Step(c, found, launches) => if c < |s.calls| then Stepped(s, c, found, launches) else s
    case Run(p, m) => if p < |s.procs| then Moved(s, p, m) else s
  }

  function Exec(s: State, acts: seq<Action>): State {
    if acts == [] then s else Apply(Exec(s, acts[..|acts| - 1]), acts[|acts| - 1])
  }

  // ---------------------------------------------------------------- The registry is what the log says

  /** What the entry of a directory holds after the log: what the last event that touched it left. */
  function EntryOf(log: seq<Event>, dir: string): Option<nat> {
    if log == [] then None
    else if Touches(log[|log| - 1], dir) then Left(log[|log| - 1])
    else EntryOf(log[..|log| - 1], dir)
  }

  /** Event m left p in the entry, and nothing has touched it since. */
  ghost predicate LeftAt(log: seq<Event>, dir: string, p: nat, m: nat) {
    m < |log| && Touches(log[m], dir) && Left(log[m]) == Some(p) && forall i | m < i < |log| :: !Touches(log[i], dir)
  }

  lemma {:induction false} EntryWasLeft(log: seq<Event>, dir: string, p: nat)
    ensures EntryOf(log, dir) == Some(p) <==> exists m :: LeftAt(log, dir, p, m)
  {
    if log != [] {
      var n := |log| - 1;
      var front := log[..n];
      EntryWasLeft(front, dir, p);
      if Touches(log[n], dir) {
        assert Left(log[n]) == Some(p) ==> LeftAt(log, dir, p, n);
      } else {
        forall m: nat ensures LeftAt(log, dir, p, m) <==> LeftAt(front, dir, p, m) {
          assert m < n ==> forall i | m < i < n :: log[i] == front[i];
        }
      }
    }
  }

  lemma EntryAfterOne(log: seq<Event>, e: Event, dir: string)
    ensures EntryOf(log + [e], dir) == if Touches(e, dir) then Left(e) else EntryOf(log, dir)
  {
    assert (log + [e])[..|log|] == log;
  }

  ghost predicate Matches(log: seq<Event>, registry: map<string, nat>) {
    forall d :: EntryOf(log, d) == if d in registry then Some(registry[d]) else None
  }

  /** What app.pid holds after the log. */
  function NamedOf(log: seq<Event>, dir: string): Option<Named> {
    if log == [] then None
    else if TouchesFile(log[|log| - 1], dir) then LeftInFile(log[|log| - 1])
    else NamedOf(log[..|log| - 1], dir)
  }

  lemma NamedAfterOne(log: seq<Event>, e: Event, dir: string)
    ensures NamedOf(log + [e], dir) == if TouchesFile(e, dir) then LeftInFile(e) else NamedOf(log, dir)
  {
    assert (log + [e])[..|log|] == log;
  }

  /** Event k left the number in app.pid, and nothing has touched the file since. */
  ghost predicate WrittenAt(log: seq<Event>, dir: string, named: Named, k: nat) {
    && k < |log| && TouchesFile(log[k], dir) && LeftInFile(log[k]) == Some(named)
    && forall i | k < i < |log| :: !TouchesFile(log[i], dir)
  }

  lemma {:induction false} NamedWasWritten(log: seq<Event>, dir: string, named: Named)
    ensures NamedOf(log, dir) == Some(named) <==> exists k :: WrittenAt(log, dir, named, k)
  {
    if log != [] {
      var n := |log| - 1;
      var front := log[..n];
      NamedWasWritten(front, dir, named);
      if TouchesFile(log[n], dir) {
        assert LeftInFile(log[n]) == Some(named) ==> WrittenAt(log, dir, named, n);
      } else {
        forall k: nat ensures WrittenAt(log, dir, named, k) <==> WrittenAt(front, dir, named, k) {
          assert k < n ==> forall i | k < i < n :: log[i] == front[i];
        }
      }
    }
  }

  /** The registry and app.pid are what the log says. */
  ghost predicate EntriesGood(s: State) {
    Matches(s.log, s.registry) && forall d :: NamedOf(s.log, d) == FileOf(s, d)
  }

  lemma RecordMatches(s: State, e: Event)
    requires EntriesGood(s)
    ensures EntriesGood(Record(s, e))
  {
    forall d
      ensures EntryOf(Record(s, e).log, d) == Entry(Record(s, e), d)
      ensures NamedOf(Record(s, e).log, d) == FileOf(Record(s, e), d)
    {
      EntryAfterOne(s.log, e, d);
      NamedAfterOne(s.log, e, d);
    }
  }

  // ---------------------------------------------------------------- What every event tells

  ghost predicate LaunchedIn(log: seq<Event>, dir: string, p: nat) {
    exists e :: e in log && e.Launched? && e.dir == dir && e.proc == p
  }

  ghost predicate StoredIn(log: seq<Event>, p: nat) {
    exists e :: e in log && e.Touched? && e.proc == p && Stores(e.site)
  }

  /** The process wrote down a process number to be watched. */
  ghost predicate NotedIn(log: seq<Event>, p: nat) {
    exists e :: e in log && e.Touched? && e.proc == p && e.site == PidStore
  }

  ghost predicate TakenBy(log: seq<Event>, dir: string, c: nat, victim: Option<nat>) {
    exists e :: e in log && e.TakenOut? && e.dir == dir && e.call == c && e.victim == victim
  }

  ghost predicate TakenOutBy(log: seq<Event>, dir: string, c: nat) {
    exists e :: e in log && e.TakenOut? && e.dir == dir && e.call == c
  }

  /** Nothing has touched the process's entry since its launch. */
  ghost predicate Undisturbed(log: seq<Event>, dir: string, p: nat) {
    exists k :: LaunchedAt(log, dir, p, k)
  }

  ghost predicate LaunchedAt(log: seq<Event>, dir: string, p: nat, k: nat) {
    && k < |log| && log[k].Launched? && log[k].dir == dir && log[k].proc == p
    && forall i | k < i < |log| :: !Touches(log[i], dir)
  }

  /** No stop has tried to kill the process, found in its entry or by its bash's number in app.pid. */
  ghost predicate NeverSignalled(log: seq<Event>, p: nat) {
    forall e | e in log :: (e.KillTried? ==> e.proc != p) && (e.FileKill? ==> e.named != Bash(p))
  }

  /** How an event fits the log before it. */
  ghost predicate Fits(log: seq<Event>, e: Event) {
    match e
    case Launched(d, p, c, restarts, over) =>
      && over == EntryOf(log, d) && TakenOutBy(log, d, c)
      && (forall f | f in log && f.Launched? :: f.proc < p)
      && (restarts.Some? ==> RestartBegun(d, restarts.value, c) in log)
    case TakenOut(d, c, restarts, victim) =>
      victim == EntryOf(log, d) && (restarts.Some? ==> RestartBegun(d, restarts.value, c) in log)
    case Cleared(d, c, restarts, over) =>
      over == EntryOf(log, d) && (restarts.Some? ==> RestartBegun(d, restarts.value, c) in log)
    case Touched(d, p, site, over) =>
      && over == EntryOf(log, d) && LaunchedIn(log, d, p) && Ended(p) in log
      && (site.PidStore? || site.GroupStore? ==> Undisturbed(log, d, p))
      && (site.WatchDelete? ==> over == Some(p))
      && (site.SettleDelete? || site.HealthDelete? ==> !NotedIn(log, p))
      && (Stores(site) ==> !StoredIn(log, p))
    case KillTried(c, p, hit) =>
      (hit <==> Ended(p) !in log || NotedIn(log, p)) && exists d :: TakenBy(log, d, c, Some(p))
    // The stop that kills by app.pid has just found no entry.
    case FileKill(c, d, named, hit) =>
      && log != [] && log[|log| - 1].TakenOut? && log[|log| - 1].dir == d && log[|log| - 1].call == c
      && log[|log| - 1].victim.None?
      && NamedOf(log, d) == Some(named) && (named.Bash? ==> (hit <==> Ended(named.proc) !in log))
    case Cleaned(_, _) => true
    case Wrote(d, p) => LaunchedIn(log, d, p) && Ended(p) !in log
    case Ended(_) => true
    case BackoffBegun(_, delay) => delay == BACKOFF_SCHEDULE[0]
    case GivenUp(_) => false
    case RestartBegun(d, p, _) => Undisturbed(log, d, p) && NeverSignalled(log, p)
  }

  ghost predicate FitsAt(log: seq<Event>, i: nat)
    requires i < |log|
  {
    Fits(log[..i], log[i])
  }

  ghost predicate LogGood(log: seq<Event>) {
    forall i | 0 <= i < |log| :: FitsAt(log, i)
  }

  lemma LogGoodWith(log: seq<Event>, e: Event)
    requires LogGood(log) && Fits(log, e)
    ensures LogGood(log + [e])
  {
    forall i | 0 <= i < |log + [e]| ensures FitsAt(log + [e], i) {
      if i < |log| {
        assert FitsAt(log, i) && (log + [e])[..i] == log[..i];
      } else {
        assert (log + [e])[..i] == log;
      }
    }
  }

  // ---------------------------------------------------------------- Invariants

  /** Each process is in the mode its goroutine's place calls for, and has not counted more than its own
      restart. */
  ghost predicate ProcGood(proc: Proc) {
    && (proc.pc.Waiting? || proc.pc.Settling? ==> proc.mode == Blocking)
    && (proc.pc.Watching? ==> proc.mode != Blocking)
    && (proc.pc.Probing? ==> HealthWatched(proc))
    && (proc.extPid.Some? ==> proc.mode == Delegating && proc.extPid.value.App?)
    && proc.restartCount <= (if proc.pc.BackingOff? || proc.pc.Gone? then 1 else 0)
  }

  ghost predicate RegistryGood(s: State) {
    forall d | d in s.registry :: s.registry[d] < |s.procs| && s.procs[s.registry[d]].dir == d
  }

  ghost predicate ProcsGood(s: State) {
    forall p | 0 <= p < |s.procs| :: ProcGood(s.procs[p])
  }

  /** What the log says about a process is what its record says. */
  ghost predicate Linked(log: seq<Event>, p: nat, proc: Proc) {
    && LaunchedIn(log, proc.dir, p)
    && (proc.pc.Waiting? <==> Ended(p) !in log)
    && (proc.extPid.Some? <==> NotedIn(log, p))
    && (proc.pc.Waiting? || proc.pc.Settling? ==> !StoredIn(log, p))
  }

  ghost predicate LinksGood(s: State) {
    && (forall p: nat | p < |s.procs| :: Linked(s.log, p, s.procs[p]))
    && (forall e | e in s.log :: Known(e, |s.procs|))
  }

  predicate Known(e: Event, procs: nat) {
    e.Launched? || e.Touched? || e.Ended? || e.KillTried? ==> e.proc < procs
  }

  ghost predicate CallGood(log: seq<Event>, c: nat, call: Call) {
    && (call.stage.Killing? ==> TakenBy(log, call.dir, c, Some(call.stage.victim)))
    && (call.stage.Cleaning? || call.stage.Launching? ==> TakenOutBy(log, call.dir, c))
    && (call.restarts.Some? ==> RestartBegun(call.dir, call.restarts.value, c) in log)
  }

  ghost predicate CallsGood(s: State) {
    forall c: nat | c < |s.calls| :: CallGood(s.log, c, s.calls[c])
  }

  /** Registered, and not yet past the pauses: its entry is the one its launch made. */
  predicate Untouched(s: State, p: nat) {
    && p < |s.procs| && IsCurrent(s, p)
    && (s.procs[p].pc.Waiting? || s.procs[p].pc.Settling? || s.procs[p].pc.BackingOff?)
  }

  ghost predicate UntouchedGood(s: State) {
    forall p: nat | Untouched(s, p) :: s.procs[p].mode == Blocking && Undisturbed(s.log, s.procs[p].dir, p)
  }

  /** app.pid names processes of its own directory. Beside an untouched process it can only name that
      process's bash, or what a run.sh has written. */
  ghost predicate FilesGood(s: State) {
    && (forall d | d in s.files :: s.files[d].proc < |s.procs| && s.procs[s.files[d].proc].dir == d)
    && (forall p: nat | Untouched(s, p) :: FileQuiet(s, p))
  }

  predicate FileQuiet(s: State, p: nat)
    requires p < |s.procs|
  {
    var named := FileOf(s, s.procs[p].dir);
    named.None? || named.value.App? || named.value == Bash(p)
  }

  /** Registered, and never out of the registry since its launch. */
  predicate Fresh(s: State, p: nat) {
    Untouched(s, p) || (p < |s.procs| && IsCurrent(s, p) && s.procs[p].extPid.Some?)
  }

  predicate Victim(c: Call, p: nat) {
    c.stage == Killing(p)
  }

  predicate Out(s: State, p: nat) {
    p < |s.procs| && !Fresh(s, p)
  }

  /** The victims of a stop are out, before and after the kill. */
  ghost predicate VictimsGood(s: State) {
    && (forall c, p: nat | 0 <= c < |s.calls| && Victim(s.calls[c], p) :: Out(s, p))
    && (forall e | e in s.log && e.KillTried? :: Out(s, e.proc))
    && (forall e | e in s.log && e.FileKill? && e.named.Bash? :: Out(s, e.named.proc))
  }

  ghost predicate Good(s: State) {
    && RegistryGood(s) && ProcsGood(s) && EntriesGood(s) && LinksGood(s) && CallsGood(s)
    && UntouchedGood(s) && FilesGood(s) && VictimsGood(s) && LogGood(s.log)
  }

  // ---------------------------------------------------------------- Every step keeps them

  /** The events a call logs. */
  predicate CallEvent(e: Event, c: nat) {
    (e.TakenOut? || e.Cleared? || e.KillTried? || e.FileKill? || e.Cleaned? || e.Launched?) && e.call == c
  }

  /** What every step of call c does at most: move the call on, log its events, launch its process. */
  ghost predicate StepsOn(s: State, t: State, c: nat)
    requires c < |s.calls|
  {
    && s.log <= t.log && (forall i | |s.log| <= i < |t.log| :: CallEvent(t.log[i], c))
    && |t.calls| == |s.calls| && (forall d | 0 <= d < |s.calls| && d != c :: t.calls[d] == s.calls[d])
    && t.calls[c] == s.calls[c].(stage := t.calls[c].stage)
    && (t.procs == s.procs || (s.calls[c].stage == Launching && t == Launch(s, c)))
  }

  lemma TakeOutStepsOn(s: State, c: nat, alive: bool)
    requires c < |s.calls|
    ensures StepsOn(s, TakeOut(s, c, alive), c)
  {
  }

  lemma LaunchStepsOn(s: State, c: nat)
    requires c < |s.calls| && s.calls[c].stage == Launching
    ensures StepsOn(s, Launch(s, c), c)
  {
  }

  lemma SteppedGrows(s: State, c: nat, found: Found, launches: bool)
    requires c < |s.calls|
    ensures StepsOn(s, Stepped(s, c, found, launches), c)
  {
    match s.calls[c].stage
    case Stopping => TakeOutStepsOn(s, c, launches);
    case Launching => LaunchStepsOn(s, c);
    case _ =>
  }

  lemma LogGrows(s: State, a: Action)
    ensures s.log <= Apply(s, a).log && |s.procs| <= |Apply(s, a).procs| && |s.calls| <= |Apply(s, a).calls|
  {
    match a
    case Step(c, found, launches) => if c < |s.calls| { SteppedGrows(s, c, found, launches); }
    case Run(p, m) => if p < |s.procs| { MovedGrows(s, p, m); }
    case _ =>
  }

  /** The events a process's own goroutine and run.sh log. */
  predicate OwnEvent(e: Event, p: nat) {
    (e.Ended? || e.Wrote? || e.Touched? || e.BackoffBegun? || e.GivenUp? || e.RestartBegun?) && e.proc == p
  }

  /** What every move of p does at most: change its own record, log its own events, begin its restart. */
  ghost predicate MovesOn(s: State, t: State, p: nat)
    requires p < |s.procs|
  {
    && s.log <= t.log && |t.procs| == |s.procs| && t.procs[p].dir == s.procs[p].dir
    && (forall q | 0 <= q < |s.procs| && q != p :: t.procs[q] == s.procs[q])
    && (t.calls == s.calls || t.calls == s.calls + [Call(s.procs[p].dir, true, Some(p), Begun)])
    && (forall i | |s.log| <= i < |t.log| :: OwnEvent(t.log[i], p))
  }

  lemma ExitedMovesOn(s: State, p: nat, crashed: bool)
    requires p < |s.procs|
    ensures MovesOn(s, Exited(s, p, crashed), p)
  {
  }

  lemma SettledMovesOn(s: State, p: nat, alive: bool, children: bool, healthScript: bool)
    requires p < |s.procs|
    ensures MovesOn(s, Settled(s, p, alive, children, healthScript), p)
  {
  }

  lemma TickedMovesOn(s: State, p: nat, stable: bool, dead: bool)
    requires p < |s.procs|
    ensures MovesOn(s, Ticked(s, p, stable, dead), p)
  {
  }

  lemma JudgedMovesOn(s: State, p: nat, healthy: bool)
    requires p < |s.procs|
    ensures MovesOn(s, Judged(s, p, healthy), p)
  {
  }

  lemma RestartedMovesOn(s: State, p: nat)
    requires p < |s.procs|
    ensures MovesOn(s, Restarted(s, p), p)
  {
  }

  lemma MovedGrows(s: State, p: nat, m: Move)
    requires p < |s.procs|
    ensures MovesOn(s, Moved(s, p, m), p)
  {
    match m
    case Exit(crashed) => ExitedMovesOn(s, p, crashed);
    case Write =>
    case Settle(alive, children, health) => SettledMovesOn(s, p, alive, children, health);
    case Tick(stable, dead) => TickedMovesOn(s, p, stable, dead);
    case Verdict(healthy) => JudgedMovesOn(s, p, healthy);
    case BackoffOver => RestartedMovesOn(s, p);
  }

  lemma MovedIsGood(s: State, p: nat, m: Move)
    requires p < |s.procs| && ProcGood(s.procs[p]) && (Untouched(s, p) ==> FileQuiet(s, p))
    ensures p < |Moved(s, p, m).procs| && ProcGood(Moved(s, p, m).procs[p])
  {
  }

  lemma ProcsKept(s: State, a: Action)
    requires ProcsGood(s) && FilesGood(s)
    ensures ProcsGood(Apply(s, a))
  {
    match a
    case Run(p, m) => if p < |s.procs| { MovedGrows(s, p, m); MovedIsGood(s, p, m); }
    case _ =>
  }

  lemma RegistryKept(s: State, a: Action)
    requires RegistryGood(s)
    ensures RegistryGood(Apply(s, a))
  {
    match a
    case Step(c, found, launches) => if c < |s.calls| { SteppedRegistry(s, c, found, launches); }
    case Run(p, m) => if p < |s.procs| { MovedRegistry(s, p, m); }
    case _ =>
  }

  lemma MovedRegistry(s: State, p: nat, m: Move)
    requires RegistryGood(s) && p < |s.procs|
    ensures RegistryGood(Moved(s, p, m))
  {
    match m
    case Exit(crashed) => ExitedRegistry(s, p, crashed);
    case Write =>
    case Settle(alive, children, health) => SettledRegistry(s, p, alive, children, health);
    case Tick(stable, dead) => TickedRegistry(s, p, stable, dead);
    case Verdict(healthy) => JudgedRegistry(s, p, healthy);
    case BackoffOver =>
  }

  lemma SteppedRegistry(s: State, c: nat, found: Found, launches: bool)
    requires RegistryGood(s) && c < |s.calls|
    ensures RegistryGood(Stepped(s, c, found, launches))
  {
    match s.calls[c].stage
    case Stopping => TakeOutRegistry(s, c, launches);
    case Launching => LaunchRegistry(s, c);
    case _ =>
  }

  lemma TakeOutRegistry(s: State, c: nat, alive: bool)
    requires RegistryGood(s) && c < |s.calls|
    ensures RegistryGood(TakeOut(s, c, alive))
  {
  }

  lemma LaunchRegistry(s: State, c: nat)
    requires RegistryGood(s) && c < |s.calls|
    ensures RegistryGood(Launch(s, c))
  {
  }

  lemma ExitedRegistry(s: State, p: nat, crashed: bool)
    requires RegistryGood(s) && p < |s.procs|
    ensures RegistryGood(Exited(s, p, crashed))
  {
  }

  lemma TouchRegistry(s: State, p: nat, site: Site)
    requires RegistryGood(s) && p < |s.procs|
    ensures RegistryGood(Touch(s, p, site))
  {
  }

  lemma BackOffRegistry(s: State, p: nat)
    requires RegistryGood(s) && p < |s.procs|
    ensures RegistryGood(BackOff(s, p))
  {
  }

  lemma SettledRegistry(s: State, p: nat, alive: bool, children: bool, healthScript: bool)
    requires RegistryGood(s) && p < |s.procs|
    ensures RegistryGood(Settled(s, p, alive, children, healthScript))
  {
    TouchRegistry(s, p, PidStore);
    TouchRegistry(s, p, GroupStore);
    TouchRegistry(s, p, HealthStore);
    TouchRegistry(s, p, SettleDelete);
  }

  lemma TickedRegistry(s: State, p: nat, stable: bool, dead: bool)
    requires RegistryGood(s) && p < |s.procs|
    ensures RegistryGood(Ticked(s, p, stable, dead))
  {
    var rested := if stable && s.procs[p].restartCount > 0 then With(s, p, s.procs[p].(restartCount := 0)) else s;
    TouchRegistry(rested, p, WatchDelete);
    BackOffRegistry(Touch(rested, p, WatchDelete), p);
  }

  lemma JudgedRegistry(s: State, p: nat, healthy: bool)
    requires RegistryGood(s) && p < |s.procs|
    ensures RegistryGood(Judged(s, p, healthy))
  {
    TouchRegistry(s, p, HealthDelete);
    BackOffRegistry(Touch(s, p, HealthDelete), p);
  }

  lemma EntriesKept(s: State, a: Action)
    requires EntriesGood(s)
    ensures EntriesGood(Apply(s, a))
  {
    match a
    case Step(c, found, launches) => if c < |s.calls| { SteppedEntries(s, c, found, launches); }
    case Run(p, m) => if p < |s.procs| { MovedEntries(s, p, m); }
    case _ =>
  }

  lemma MovedEntries(s: State, p: nat, m: Move)
    requires EntriesGood(s) && p < |s.procs|
    ensures EntriesGood(Moved(s, p, m))
  {
    match m
    case Exit(crashed) => ExitedEntries(s, p, crashed);
    case Write => RecordMatches(s, Wrote(s.procs[p].dir, p));
    case Settle(_, _, _) => TouchEntries(s, p);
    case Tick(stable, dead) => TickedEntries(s, p, stable, dead);
    case Verdict(healthy) => JudgedEntries(s, p, healthy);
    case BackoffOver => RecordMatches(s, RestartBegun(s.procs[p].dir, p, |s.calls|));
  }

  lemma ExitedEntries(s: State, p: nat, crashed: bool)
    requires EntriesGood(s) && p < |s.procs|
    ensures EntriesGood(Exited(s, p, crashed))
  {
    RecordMatches(s, Ended(p));
    BackOffEntries(Record(s, Ended(p)), p);
  }

  lemma JudgedEntries(s: State, p: nat, healthy: bool)
    requires EntriesGood(s) && p < |s.procs|
    ensures EntriesGood(Judged(s, p, healthy))
  {
    TouchEntries(s, p);
    BackOffEntries(Touch(s, p, HealthDelete), p);
  }

  lemma TouchEntries(s: State, p: nat)
    requires EntriesGood(s) && p < |s.procs|
    ensures forall site :: EntriesGood(Touch(s, p, site))
  {
    forall site ensures EntriesGood(Touch(s, p, site)) {
      RecordMatches(s, Touched(s.procs[p].dir, p, site, Entry(s, s.procs[p].dir)));
    }
  }

  lemma BackOffEntries(s: State, p: nat)
    requires EntriesGood(s) && p < |s.procs|
    ensures EntriesGood(BackOff(s, p))
  {
    RecordMatches(s, GivenUp(p));
    forall delay: nat { RecordMatches(s, BackoffBegun(p, delay)); }
  }

  lemma TickedEntries(s: State, p: nat, stable: bool, dead: bool)
    requires EntriesGood(s) && p < |s.procs|
    ensures EntriesGood(Ticked(s, p, stable, dead))
  {
    var rested := if stable && s.procs[p].restartCount > 0 then With(s, p, s.procs[p].(restartCount := 0)) else s;
    TouchEntries(rested, p);
    BackOffEntries(Touch(rested, p, WatchDelete), p);
  }

  lemma TakeOutEntries(s: State, c: nat, alive: bool)
    requires EntriesGood(s) && c < |s.calls|
    ensures EntriesGood(TakeOut(s, c, alive))
  {
    var call := s.calls[c];
    var e := TakenOut(call.dir, c, call.restarts, Entry(s, call.dir));
    RecordMatches(s, e);
    if FileOf(s, call.dir).Some? {
      var named := FileOf(s, call.dir).value;
      RecordMatches(Record(s, e), FileKill(c, call.dir, named, AliveNumber(s, named, alive)));
    }
  }

  lemma SteppedEntries(s: State, c: nat, found: Found, launches: bool)
    requires EntriesGood(s) && c < |s.calls|
    ensures EntriesGood(Stepped(s, c, found, launches))
  {
    var call := s.calls[c];
    match call.stage
    case Begun => RecordMatches(s, Cleared(call.dir, c, call.restarts, Entry(s, call.dir)));
    case Stopping => TakeOutEntries(s, c, launches);
    case Killing(victim) =>
      if victim < |s.procs| { RecordMatches(s, KillTried(c, victim, Hits(s.procs[victim]))); }
    case Cleaning => RecordMatches(s, Cleaned(call.dir, c));
    case Launching => RecordMatches(s, Launched(call.dir, |s.procs|, c, call.restarts, Entry(s, call.dir)));
    case Returned =>
  }

  // ---------------------------------------------------------------- Records and log agree

  /** The event is about whether bash of p has ended, or about what p has stored. */
  predicate Concerns(e: Event, p: nat) {
    (e.Ended? || (e.Touched? && Stores(e.site))) && e.proc == p
  }

  lemma LinkedStays(log: seq<Event>, e: Event, p: nat, proc: Proc)
    requires Linked(log, p, proc) && !Concerns(e, p)
    ensures Linked(log + [e], p, proc)
  {
    assert forall f :: f in log + [e] <==> f in log || f == e;
  }

  lemma LinkedStaysLonger(log: seq<Event>, longer: seq<Event>, p: nat, proc: Proc)
    requires Linked(log, p, proc) && log <= longer
    requires forall i | |log| <= i < |longer| :: !Concerns(longer[i], p)
    ensures Linked(longer, p, proc)
  {
    assert forall e | e in log :: e in longer;
    assert forall i | 0 <= i < |log| :: longer[i] == log[i] && log[i] in log;
    forall e | e in longer && e !in log ensures !Concerns(e, p) {
      var i :| 0 <= i < |longer| && longer[i] == e;
    }
  }

  /** Only where bash is running and what is noted matter to the log. */
  lemma LinkedMoves(log: seq<Event>, p: nat, proc: Proc, moved: Proc)
    requires Linked(log, p, proc) && moved.dir == proc.dir && moved.extPid == proc.extPid
    requires moved.pc == proc.pc || (!proc.pc.Waiting? && !moved.pc.Waiting? && !moved.pc.Settling?)
    ensures Linked(log, p, moved)
  {
  }

  lemma LinkedEnds(log: seq<Event>, p: nat, proc: Proc, pc: Pc)
    requires Linked(log, p, proc) && proc.pc.Waiting? && !pc.Waiting?
    ensures Linked(log + [Ended(p)], p, proc.(pc := pc))
  {
    assert forall f :: f in log + [Ended(p)] <==> f in log || f == Ended(p);
  }

  lemma LinkedStores(log: seq<Event>, p: nat, proc: Proc, e: Event, stored: Proc)
    requires Linked(log, p, proc) && proc.pc.Settling? && proc.extPid.None?
    requires e.Touched? && e.proc == p && Stores(e.site)
    requires stored.dir == proc.dir && stored.pc.Watching? && (stored.extPid.Some? <==> e.site.PidStore?)
    ensures Linked(log + [e], p, stored)
  {
    assert forall f :: f in log + [e] <==> f in log || f == e;
  }

  lemma LinkedStarts(log: seq<Event>, e: Event, dir: string, p: nat)
    requires e.Launched? && e.dir == dir && e.proc == p
    requires forall f | f in log :: Known(f, p)
    ensures Linked(log + [e], p, Proc(dir, Blocking, None, 0, Waiting))
  {
    assert e in log + [e];
    assert forall f :: f in log + [e] <==> f in log || f == e;
  }

  /** The record of q in t is linked to t's log. */
  ghost predicate LinkedAt(s: State, q: nat)
    requires q < |s.procs|
  {
    Linked(s.log, q, s.procs[q])
  }

  lemma BackOffLinks(s: State, p: nat, q: nat)
    requires p < |s.procs| && q < |s.procs| && LinkedAt(s, q) && !s.procs[p].pc.Waiting?
    ensures LinkedAt(BackOff(s, p), q)
  {
    var t := BackOff(s, p);
    var e := t.log[|s.log|];
    assert t.log == s.log + [e];
    LinkedStays(s.log, e, q, s.procs[q]);
    LinkedMoves(t.log, q, s.procs[q], t.procs[q]);
  }

  lemma ExitedLinks(s: State, p: nat, crashed: bool, q: nat)
    requires p < |s.procs| && q < |s.procs| && LinkedAt(s, q) && s.procs[p].pc.Waiting?
    ensures LinkedAt(Exited(s, p, crashed), q)
  {
    var ended := Record(s, Ended(p));
    if q != p { LinkedStays(s.log, Ended(p), q, s.procs[q]); }
    if crashed && IsCurrent(s, p) {
      var gone := GoesTo(ended, p, Gone);
      if q == p { LinkedEnds(s.log, p, s.procs[p], Gone); }
      BackOffLinks(gone, p, q);
      LinkedMoves(BackOff(gone, p).log, q, BackOff(gone, p).procs[q], BackOff(ended, p).procs[q]);
    } else if q == p {
      LinkedEnds(s.log, p, s.procs[p], if crashed then Gone else Settling);
    }
  }

  lemma DeleteLinks(s: State, p: nat, site: Site, q: nat)
    requires p < |s.procs| && q < |s.procs| && LinkedAt(s, q) && !Stores(site)
    ensures LinkedAt(Touch(s, p, site), q)
  {
    LinkedStays(s.log, Touched(s.procs[p].dir, p, site, Entry(s, s.procs[p].dir)), q, s.procs[q]);
  }

  lemma WatchedLinks(s: State, p: nat, mode: Mode, extPid: Option<Named>, site: Site, q: nat)
    requires p < |s.procs| && q < |s.procs| && LinkedAt(s, q) && s.procs[p].pc.Settling? && s.procs[p].extPid.None?
    requires Stores(site) && (extPid.Some? <==> site.PidStore?)
    ensures LinkedAt(Watched(s, p, mode, extPid, site), q)
  {
    var e := Touched(s.procs[p].dir, p, site, Entry(s, s.procs[p].dir));
    if q == p {
      LinkedStores(s.log, p, s.procs[p], e, Watched(s, p, mode, extPid, site).procs[p]);
    } else {
      LinkedStays(s.log, e, q, s.procs[q]);
    }
  }

  lemma SettledLinks(s: State, p: nat, alive: bool, children: bool, healthScript: bool, q: nat)
    requires p < |s.procs| && q < |s.procs| && LinkedAt(s, q) && s.procs[p].pc.Settling? && s.procs[p].extPid.None?
    ensures LinkedAt(Settled(s, p, alive, children, healthScript), q)
  {
    if FindsNumber(s, p, alive) { WatchedLinks(s, p, Delegating, FileOf(s, s.procs[p].dir), PidStore, q); }
    else if children && IsCurrent(s, p) { WatchedLinks(s, p, Background, None, GroupStore, q); }
    else if healthScript { WatchedLinks(s, p, Delegating, None, HealthStore, q); }
    else {
      var touched := Touch(s, p, SettleDelete);
      DeleteLinks(s, p, SettleDelete, q);
      LinkedMoves(touched.log, q, touched.procs[q], GoesTo(touched, p, Gone).procs[q]);
    }
  }

  lemma TickedLinks(s: State, p: nat, stable: bool, dead: bool, q: nat)
    requires p < |s.procs| && q < |s.procs| && LinkedAt(s, q) && s.procs[p].pc.Watching?
    ensures LinkedAt(Ticked(s, p, stable, dead), q)
  {
    var rested := if stable && s.procs[p].restartCount > 0 then With(s, p, s.procs[p].(restartCount := 0)) else s;
    LinkedMoves(s.log, q, s.procs[q], rested.procs[q]);
    if IsCurrent(s, p) && !HealthWatched(s.procs[p]) && dead {
      DeleteLinks(rested, p, WatchDelete, q);
      BackOffLinks(Touch(rested, p, WatchDelete), p, q);
    } else {
      LinkedMoves(s.log, q, s.procs[q], Ticked(s, p, stable, dead).procs[q]);
    }
  }

  lemma JudgedLinks(s: State, p: nat, healthy: bool, q: nat)
    requires p < |s.procs| && q < |s.procs| && LinkedAt(s, q) && s.procs[p].pc.Probing?
    ensures LinkedAt(Judged(s, p, healthy), q)
  {
    if healthy {
      LinkedMoves(s.log, q, s.procs[q], Judged(s, p, healthy).procs[q]);
    } else {
      DeleteLinks(s, p, HealthDelete, q);
      BackOffLinks(Touch(s, p, HealthDelete), p, q);
    }
  }

  lemma RestartedLinks(s: State, p: nat, q: nat)
    requires p < |s.procs| && q < |s.procs| && LinkedAt(s, q) && s.procs[p].pc.BackingOff?
    ensures LinkedAt(Restarted(s, p), q)
  {
    LinkedStays(s.log, RestartBegun(s.procs[p].dir, p, |s.calls|), q, s.procs[q]);
    LinkedMoves(Restarted(s, p).log, q, s.procs[q], Restarted(s, p).procs[q]);
  }

  lemma SteppedLinks(s: State, c: nat, found: Found, launches: bool, q: nat)
    requires LinksGood(s) && c < |s.calls| && q < |Stepped(s, c, found, launches).procs|
    ensures LinkedAt(Stepped(s, c, found, launches), q)
  {
    var t := Stepped(s, c, found, launches);
    SteppedGrows(s, c, found, launches);
    if q < |s.procs| {
      LinkedStaysLonger(s.log, t.log, q, s.procs[q]);
    } else {
      LinkedStarts(s.log, t.log[|s.log|], s.calls[c].dir, q);
    }
  }

  lemma MovedLinks(s: State, p: nat, m: Move, q: nat)
    requires p < |s.procs| && q < |s.procs| && LinkedAt(s, q) && ProcGood(s.procs[p])
    ensures q < |Moved(s, p, m).procs| && LinkedAt(Moved(s, p, m), q)
  {
    match m
    case Exit(crashed) => if s.procs[p].pc.Waiting? { ExitedLinks(s, p, crashed, q); }
    case Write => if s.procs[p].pc.Waiting? { LinkedStays(s.log, Wrote(s.procs[p].dir, p), q, s.procs[q]); }
    case Settle(alive, children, health) =>
      if s.procs[p].pc.Settling? { SettledLinks(s, p, alive, children, health, q); }
    case Tick(stable, dead) => if s.procs[p].pc.Watching? { TickedLinks(s, p, stable, dead, q); }
    case Verdict(healthy) => if s.procs[p].pc.Probing? { JudgedLinks(s, p, healthy, q); }
    case BackoffOver => if s.procs[p].pc.BackingOff? { RestartedLinks(s, p, q); }
  }

  lemma LinkKept(s: State, a: Action, q: nat)
    requires ProcsGood(s) && LinksGood(s) && q < |Apply(s, a).procs|
    ensures LinkedAt(Apply(s, a), q)
  {
    match a
    case Step(c, found, launches) => if c < |s.calls| { SteppedLinks(s, c, found, launches, q); }
    case Run(p, m) => if p < |s.procs| { MovedGrows(s, p, m); MovedLinks(s, p, m, q); }
    case _ =>
  }

  lemma LinksKept(s: State, a: Action)
    requires ProcsGood(s) && LinksGood(s)
    ensures LinksGood(Apply(s, a))
  {
    var t := Apply(s, a);
    LogGrows(s, a);
    forall q: nat | q < |t.procs| ensures Linked(t.log, q, t.procs[q]) {
      LinkKept(s, a, q);
    }
    forall e | e in t.log ensures Known(e, |t.procs|) {
      if e !in s.log { NewIsKnown(s, a, e); }
    }
  }

  lemma NewAtTheEnd(log: seq<Event>, longer: seq<Event>, e: Event)
    requires log <= longer && e in longer && e !in log
    ensures exists i :: |log| <= i < |longer| && longer[i] == e
  {
    assert forall i | 0 <= i < |log| :: longer[i] == log[i] && log[i] in log;
    var i :| 0 <= i < |longer| && longer[i] == e;
  }

  lemma NewIsKnown(s: State, a: Action, e: Event)
    requires e in Apply(s, a).log && e !in s.log
    ensures Known(e, |Apply(s, a).procs|)
    ensures e.KillTried? ==> a.Step? && a.call < |s.calls| && Victim(s.calls[a.call], e.proc)
    ensures e.FileKill? ==> a.Step? && a.call < |s.calls| && MissedFile(s, a.call, e)
  {
    match a
    case Step(c, found, launches) =>
      if c < |s.calls| {
        SteppedIsKnown(s, c, found, launches);
        SteppedGrows(s, c, found, launches);
        NewAtTheEnd(s.log, Stepped(s, c, found, launches).log, e);
      }
    case Run(p, m) =>
      if p < |s.procs| {
        MovedGrows(s, p, m);
        NewAtTheEnd(s.log, Moved(s, p, m).log, e);
      }
    case _ =>
  }

  /** The call is at its stop, finds no entry, and app.pid holds the number the event names. */
  predicate MissedFile(s: State, c: nat, e: Event)
    requires c < |s.calls| && e.FileKill?
  {
    var call := s.calls[c];
    call.stage == Stopping && Entry(s, call.dir).None? && FileOf(s, call.dir) == Some(e.named)
  }

  lemma SteppedIsKnown(s: State, c: nat, found: Found, launches: bool)
    requires c < |s.calls|
    ensures var t := Stepped(s, c, found, launches);
            forall i | |s.log| <= i < |t.log| ::
              && Known(t.log[i], |t.procs|) && (t.log[i].KillTried? ==> Victim(s.calls[c], t.log[i].proc))
              && (t.log[i].FileKill? ==> MissedFile(s, c, t.log[i]))
  {
  }

  // ---------------------------------------------------------------- Calls, victims, entries

  lemma CallStays(log: seq<Event>, longer: seq<Event>, c: nat, call: Call)
    requires CallGood(log, c, call) && log <= longer
    ensures CallGood(longer, c, call)
  {
    assert forall e | e in log :: e in longer;
  }

  /** The call stays as it is, unless the step is its own. */
  lemma OtherCall(s: State, a: Action, c: nat)
    requires c < |s.calls| && !(a.Step? && a.call == c)
    ensures c < |Apply(s, a).calls| && Apply(s, a).calls[c] == s.calls[c]
  {
    match a
    case Step(d, found, launches) => if d < |s.calls| { SteppedGrows(s, d, found, launches); }
    case Run(p, m) => if p < |s.procs| { MovedGrows(s, p, m); }
    case _ =>
  }

  lemma CallKept(s: State, a: Action, c: nat)
    requires CallsGood(s) && c < |s.calls|
    ensures c < |Apply(s, a).calls| && CallGood(Apply(s, a).log, c, Apply(s, a).calls[c])
  {
    if a.Step? && a.call == c {
      SteppedGrows(s, c, a.found, a.launches);
      SteppedCall(s, c, a.found, a.launches);
    } else {
      LogGrows(s, a);
      OtherCall(s, a, c);
      CallStays(s.log, Apply(s, a).log, c, s.calls[c]);
    }
  }

  lemma CallsKept(s: State, a: Action)
    requires CallsGood(s)
    ensures CallsGood(Apply(s, a))
  {
    forall c: nat | c < |Apply(s, a).calls| ensures CallGood(Apply(s, a).log, c, Apply(s, a).calls[c]) {
      if c < |s.calls| { CallKept(s, a, c); } else { NewCall(s, a); }
    }
  }

  lemma NewCall(s: State, a: Action)
    requires |Apply(s, a).calls| > |s.calls|
    ensures |Apply(s, a).calls| == |s.calls| + 1
    ensures CallGood(Apply(s, a).log, |s.calls|, Apply(s, a).calls[|s.calls|])
  {
    match a
    case Run(p, m) => if p < |s.procs| { MovedGrows(s, p, m); NewRestart(s, p, m); }
    case Step(c, found, launches) => if c < |s.calls| { SteppedGrows(s, c, found, launches); }
    case _ =>
  }

  lemma NewRestart(s: State, p: nat, m: Move)
    requires p < |s.procs| && |Moved(s, p, m).calls| > |s.calls|
    ensures CallGood(Moved(s, p, m).log, |s.calls|, Moved(s, p, m).calls[|s.calls|])
  {
    assert Moved(s, p, m).log[|s.log|] in Moved(s, p, m).log;
  }

  lemma TakeOutIsLogged(s: State, c: nat, alive: bool)
    requires c < |s.calls|
    ensures var call := s.calls[c];
            TakenOut(call.dir, c, call.restarts, Entry(s, call.dir)) in TakeOut(s, c, alive).log
  {
    var t := TakeOut(s, c, alive);
    assert t.log[|s.log|] == TakenOut(s.calls[c].dir, c, s.calls[c].restarts, Entry(s, s.calls[c].dir));
    assert t.log[|s.log|] in t.log;
  }

  lemma SteppedCall(s: State, c: nat, found: Found, launches: bool)
    requires c < |s.calls| && CallGood(s.log, c, s.calls[c])
    ensures CallGood(Stepped(s, c, found, launches).log, c, Stepped(s, c, found, launches).calls[c])
  {
    var t := Stepped(s, c, found, launches);
    assert s.log <= t.log;
    CallStays(s.log, t.log, c, s.calls[c]);
    if s.calls[c].stage.Stopping? { TakeOutIsLogged(s, c, launches); }
  }

  /** No process regains what it has lost, and what touches an entry takes it away. */
  ghost predicate Shrinks(s: State, t: State, p: nat)
    requires p < |s.procs|
  {
    && (Fresh(t, p) ==> Fresh(s, p))
    && (CanRestart(t, p) ==> CanRestart(s, p))
    && (Untouched(t, p) ==>
          && Untouched(s, p)
          && t.procs[p].mode == s.procs[p].mode && t.procs[p].dir == s.procs[p].dir
          && (FileQuiet(s, p) ==> FileQuiet(t, p))
          && forall i | |s.log| <= i < |t.log| :: !Touches(t.log[i], s.procs[p].dir))
  }

  /** A process that could still be restarted. */
  predicate CanRestart(s: State, p: nat) {
    && p < |s.procs| && IsCurrent(s, p)
    && (s.procs[p].pc.Waiting? || s.procs[p].pc.BackingOff?)
  }

  lemma ChancesShrink(s: State, a: Action, p: nat)
    requires RegistryGood(s) && ProcsGood(s) && p < |s.procs|
    ensures Shrinks(s, Apply(s, a), p)
  {
    match a
    case Step(c, found, launches) => if c < |s.calls| { SteppedShrinks(s, c, found, launches, p); }
    case Run(q, m) => if q < |s.procs| { MovedShrinks(s, q, m, p); }
    case _ =>
  }

  lemma MovedShrinks(s: State, q: nat, m: Move, p: nat)
    requires p < |s.procs| && q < |s.procs| && ProcGood(s.procs[q])
    ensures Shrinks(s, Moved(s, q, m), p)
  {
    match m
    case Exit(crashed) => if s.procs[q].pc == Waiting { ExitedShrinks(s, q, crashed, p); }
    case Write => WroteShrinks(s, q, p);
    case Settle(alive, children, health) =>
      if s.procs[q].pc == Settling { SettledShrinks(s, q, alive, children, health, p); }
    case Tick(stable, dead) => if s.procs[q].pc == Watching { TickedShrinks(s, q, stable, dead, p); }
    case Verdict(healthy) => if s.procs[q].pc == Probing { JudgedShrinks(s, q, healthy, p); }
    case BackoffOver =>
  }

  lemma SteppedShrinks(s: State, c: nat, found: Found, launches: bool, p: nat)
    requires RegistryGood(s) && c < |s.calls| && p < |s.procs|
    ensures Shrinks(s, Stepped(s, c, found, launches), p)
  {
    match s.calls[c].stage
    case Stopping => TakeOutShrinks(s, c, launches, p);
    case Launching => LaunchShrinks(s, c, p);
    case _ =>
  }

  lemma TakeOutShrinks(s: State, c: nat, alive: bool, p: nat)
    requires RegistryGood(s) && c < |s.calls| && p < |s.procs|
    ensures Shrinks(s, TakeOut(s, c, alive), p)
  {
  }

  lemma WroteShrinks(s: State, q: nat, p: nat)
    requires p < |s.procs| && q < |s.procs|
    ensures Shrinks(s, Record(s, Wrote(s.procs[q].dir, q)), p)
  {
  }

  lemma LaunchShrinks(s: State, c: nat, p: nat)
    requires RegistryGood(s) && c < |s.calls| && p < |s.procs|
    ensures Shrinks(s, Launch(s, c), p)
  {
  }

  lemma ExitedShrinks(s: State, q: nat, crashed: bool, p: nat)
    requires p < |s.procs| && q < |s.procs| && s.procs[q].pc == Waiting
    ensures Shrinks(s, Exited(s, q, crashed), p)
  {
  }

  lemma SettledShrinks(s: State, q: nat, alive: bool, children: bool, healthScript: bool, p: nat)
    requires p < |s.procs| && q < |s.procs| && s.procs[q].pc == Settling && ProcGood(s.procs[q])
    ensures Shrinks(s, Settled(s, q, alive, children, healthScript), p)
  {
    if FindsNumber(s, q, alive) { WatchedShrinks(s, q, Delegating, FileOf(s, s.procs[q].dir), PidStore, p); }
    else if children && IsCurrent(s, q) { WatchedShrinks(s, q, Background, None, GroupStore, p); }
    else if healthScript { WatchedShrinks(s, q, Delegating, None, HealthStore, p); }
  }

  lemma WatchedShrinks(s: State, q: nat, mode: Mode, extPid: Option<Named>, site: Site, p: nat)
    requires p < |s.procs| && q < |s.procs| && s.procs[q].pc == Settling && Stores(site)
    requires if site.HealthStore? then extPid.None? && s.procs[q].extPid.None? else IsCurrent(s, q)
    ensures Shrinks(s, Watched(s, q, mode, extPid, site), p)
  {
  }

  lemma TickedShrinks(s: State, q: nat, stable: bool, dead: bool, p: nat)
    requires p < |s.procs| && q < |s.procs| && s.procs[q].pc == Watching
    ensures Shrinks(s, Ticked(s, q, stable, dead), p)
  {
    var rested := if stable && s.procs[q].restartCount > 0 then With(s, q, s.procs[q].(restartCount := 0)) else s;
    if IsCurrent(s, q) && !HealthWatched(s.procs[q]) && dead {
      DeletedShrinks(rested, q, WatchDelete, p);
    }
  }

  lemma DeletedShrinks(s: State, q: nat, site: Site, p: nat)
    requires p < |s.procs| && q < |s.procs| && !Stores(site)
    requires s.procs[q].pc == Watching || s.procs[q].pc == Probing
    ensures Shrinks(s, BackOff(Touch(s, q, site), q), p)
  {
  }

  lemma JudgedShrinks(s: State, q: nat, healthy: bool, p: nat)
    requires p < |s.procs| && q < |s.procs| && s.procs[q].pc == Probing
    ensures Shrinks(s, Judged(s, q, healthy), p)
  {
    if !healthy { DeletedShrinks(s, q, HealthDelete, p); }
  }

  lemma UntouchedKept(s: State, a: Action)
    requires Good(s)
    ensures UntouchedGood(Apply(s, a))
  {
    var t := Apply(s, a);
    LogGrows(s, a);
    forall p: nat | Untouched(t, p) ensures t.procs[p].mode == Blocking && Undisturbed(t.log, t.procs[p].dir, p) {
      if p < |s.procs| {
        ChancesShrink(s, a, p);
        var k :| LaunchedAt(s.log, s.procs[p].dir, p, k);
        assert LaunchedAt(t.log, t.procs[p].dir, p, k);
      } else {
        JustLaunched(s, a, p);
      }
    }
  }

  lemma JustLaunched(s: State, a: Action, p: nat)
    requires |s.procs| <= p < |Apply(s, a).procs|
    ensures var t := Apply(s, a);
            t.procs[p].mode == Blocking && LaunchedAt(t.log, t.procs[p].dir, p, |s.log|) && FileQuiet(t, p)
  {
    match a
    case Step(c, found, launches) => if c < |s.calls| { SteppedGrows(s, c, found, launches); LaunchIsFresh(s, c); }
    case Run(q, m) => if q < |s.procs| { MovedGrows(s, q, m); }
    case _ =>
  }

  lemma LaunchIsFresh(s: State, c: nat)
    requires c < |s.calls|
    ensures var t, p := Launch(s, c), |s.procs|;
            && |t.procs| == p + 1 && t.procs[p].mode == Blocking && LaunchedAt(t.log, t.procs[p].dir, p, |s.log|)
            && FileQuiet(t, p)
  {
  }

  lemma StaysOut(s: State, a: Action, p: nat)
    requires RegistryGood(s) && ProcsGood(s) && Out(s, p)
    ensures Out(Apply(s, a), p)
  {
    LogGrows(s, a);
    ChancesShrink(s, a, p);
  }

  /** A call finds its victim when it takes the entry out. */
  lemma NewVictimIs(s: State, a: Action, c: nat, p: nat)
    requires c < |Apply(s, a).calls| && Victim(Apply(s, a).calls[c], p)
    requires c < |s.calls| ==> !Victim(s.calls[c], p)
    ensures a.Step? && a.call == c && c < |s.calls| && s.calls[c].stage == Stopping
    ensures Entry(s, s.calls[c].dir) == Some(p)
  {
    match a
    case Step(d, found, launches) => if d < |s.calls| { SteppedVictim(s, d, found, launches, c, p); }
    case Run(q, m) => if q < |s.procs| { MovedGrows(s, q, m); }
    case _ =>
  }

  lemma SteppedVictim(s: State, d: nat, found: Found, launches: bool, c: nat, p: nat)
    requires d < |s.calls| && c < |s.calls| && Victim(Stepped(s, d, found, launches).calls[c], p)
    requires !Victim(s.calls[c], p)
    ensures d == c && s.calls[c].stage == Stopping && Entry(s, s.calls[c].dir) == Some(p)
  {
    SteppedGrows(s, d, found, launches);
  }

  lemma TakenOutIsOut(s: State, c: nat, alive: bool)
    requires RegistryGood(s) && c < |s.calls| && s.calls[c].dir in s.registry
    ensures Out(TakeOut(s, c, alive), s.registry[s.calls[c].dir])
  {
  }

  lemma VictimsKept(s: State, a: Action)
    requires Good(s)
    ensures VictimsGood(Apply(s, a))
  {
    var t := Apply(s, a);
    forall c, p: nat | 0 <= c < |t.calls| && Victim(t.calls[c], p) ensures Out(t, p) {
      if c < |s.calls| && Victim(s.calls[c], p) {
        StaysOut(s, a, p);
      } else {
        NewVictimIs(s, a, c, p);
        TakenOutIsOut(s, c, a.launches);
      }
    }
    forall e | e in t.log && e.KillTried? ensures Out(t, e.proc) {
      if e !in s.log { NewIsKnown(s, a, e); }
      StaysOut(s, a, e.proc);
    }
    forall e | e in t.log && e.FileKill? && e.named.Bash? ensures Out(t, e.named.proc) {
      if e !in s.log {
        NewIsKnown(s, a, e);
        MissedIsOut(s, a.call, e);
      }
      StaysOut(s, a, e.named.proc);
    }
  }

  lemma MissedIsOut(s: State, c: nat, e: Event)
    requires FilesGood(s) && c < |s.calls| && e.FileKill? && MissedFile(s, c, e)
    ensures Out(s, e.named.proc)
  {
  }

  lemma FilesKept(s: State, a: Action)
    requires Good(s)
    ensures FilesGood(Apply(s, a))
  {
    var t := Apply(s, a);
    LogGrows(s, a);
    forall d | d in t.files ensures t.files[d].proc < |t.procs| && t.procs[t.files[d].proc].dir == d {
      match a
      case Step(c, found, launches) => if c < |s.calls| { SteppedFiles(s, c, found, launches, d); }
      case Run(p, m) => if p < |s.procs| { MovedFiles(s, p, m, d); }
      case _ =>
    }
    forall p: nat | Untouched(t, p) ensures FileQuiet(t, p) {
      if p < |s.procs| {
        ChancesShrink(s, a, p);
      } else {
        JustLaunched(s, a, p);
      }
    }
  }

  ghost predicate FileGood(s: State, d: string) {
    d in s.files ==> s.files[d].proc < |s.procs| && s.procs[s.files[d].proc].dir == d
  }

  lemma SteppedFiles(s: State, c: nat, found: Found, launches: bool, d: string)
    requires c < |s.calls| && FileGood(s, d)
    ensures FileGood(Stepped(s, c, found, launches), d)
  {
    SteppedGrows(s, c, found, launches);
    match s.calls[c].stage
    case Cleaning => RecordFiles(s, Cleaned(s.calls[c].dir, c), d);
    case Launching => LaunchFiles(s, c, d);
    case _ => SameFiles(s, Stepped(s, c, found, launches), d);
  }

  lemma LaunchFiles(s: State, c: nat, d: string)
    requires c < |s.calls| && FileGood(s, d)
    ensures FileGood(Launch(s, c), d)
  {
  }

  lemma RecordFiles(s: State, e: Event, d: string)
    requires FileGood(s, d)
    requires TouchesFile(e, d) && LeftInFile(e).Some? ==> e.proc < |s.procs| && s.procs[e.proc].dir == d
    ensures FileGood(Record(s, e), d)
  {
  }

  /** The file and the directories of the records stay. */
  lemma SameFiles(s: State, t: State, d: string)
    requires FileGood(s, d) && t.files == s.files && |s.procs| <= |t.procs|
    requires forall p | 0 <= p < |s.procs| :: t.procs[p].dir == s.procs[p].dir
    ensures FileGood(t, d)
  {
  }

  lemma SettledFiles(s: State, p: nat, alive: bool, children: bool, healthScript: bool, d: string)
    requires p < |s.procs| && FileGood(s, d)
    ensures FileGood(Settled(s, p, alive, children, healthScript), d)
  {
    forall site ensures FileGood(Touch(s, p, site), d) {
      RecordFiles(s, Touched(s.procs[p].dir, p, site, Entry(s, s.procs[p].dir)), d);
    }
  }

  lemma MovedFiles(s: State, p: nat, m: Move, d: string)
    requires p < |s.procs| && FileGood(s, d)
    ensures FileGood(Moved(s, p, m), d)
  {
    MovedGrows(s, p, m);
    match m
    case Write => RecordFiles(s, Wrote(s.procs[p].dir, p), d);
    case Settle(alive, children, health) => SettledFiles(s, p, alive, children, health, d);
    case _ => OtherMovesKeepFiles(s, p, m); SameFiles(s, Moved(s, p, m), d);
  }

  lemma OtherMovesKeepFiles(s: State, p: nat, m: Move)
    requires p < |s.procs| && !m.Write? && !m.Settle?
    ensures Moved(s, p, m).files == s.files
  {
    match m
    case Exit(crashed) => BackOffKeepsFiles(Record(s, Ended(p)), p);
    case Tick(stable, dead) => TickedKeepsFiles(s, p, stable, dead);
    case Verdict(healthy) => BackOffKeepsFiles(Touch(s, p, HealthDelete), p);
    case _ =>
  }

  lemma TickedKeepsFiles(s: State, p: nat, stable: bool, dead: bool)
    requires p < |s.procs|
    ensures Ticked(s, p, stable, dead).files == s.files
  {
    var rested := if stable && s.procs[p].restartCount > 0 then With(s, p, s.procs[p].(restartCount := 0)) else s;
    BackOffKeepsFiles(Touch(rested, p, WatchDelete), p);
  }

  lemma BackOffKeepsFiles(s: State, p: nat)
    requires p < |s.procs|
    ensures BackOff(s, p).files == s.files
  {
  }

  // ---------------------------------------------------------------- The events fit

  lemma BackOffFits(s: State, p: nat)
    requires LogGood(s.log) && p < |s.procs| && s.procs[p].restartCount == 0
    ensures LogGood(BackOff(s, p).log) && BackOff(s, p).log == s.log + [BackoffBegun(p, BACKOFF_SCHEDULE[0])]
  {
    LogGoodWith(s.log, BackoffBegun(p, BACKOFF_SCHEDULE[0]));
  }

  lemma TouchFits(s: State, p: nat, site: Site)
    requires LogGood(s.log) && EntriesGood(s) && LinksGood(s) && UntouchedGood(s) && p < |s.procs|
    requires site.PidStore? || site.GroupStore? ==> Untouched(s, p)
    requires site.WatchDelete? ==> IsCurrent(s, p)
    requires site.SettleDelete? || site.HealthDelete? ==> s.procs[p].extPid.None?
    requires !s.procs[p].pc.Waiting? && (Stores(site) ==> s.procs[p].pc.Settling?)
    ensures LogGood(Touch(s, p, site).log)
  {
    assert Linked(s.log, p, s.procs[p]);
    LogGoodWith(s.log, Touched(s.procs[p].dir, p, site, Entry(s, s.procs[p].dir)));
  }

  lemma KillFits(s: State, c: nat, p: nat)
    requires Good(s) && c < |s.calls| && Victim(s.calls[c], p)
    ensures LogGood(Kill(s, c, p).log)
  {
    assert Out(s, p) && Linked(s.log, p, s.procs[p]) && ProcGood(s.procs[p]);
    assert CallGood(s.log, c, s.calls[c]);
    LogGoodWith(s.log, KillTried(c, p, Hits(s.procs[p])));
  }

  lemma TakeOutFits(s: State, c: nat, alive: bool)
    requires Good(s) && c < |s.calls|
    ensures LogGood(TakeOut(s, c, alive).log)
  {
    var call := s.calls[c];
    var e := TakenOut(call.dir, c, call.restarts, Entry(s, call.dir));
    assert CallGood(s.log, c, call);
    LogGoodWith(s.log, e);
    if Entry(s, call.dir).None? && FileOf(s, call.dir).Some? {
      MissFits(s, c, e, alive);
    }
  }

  lemma MissFits(s: State, c: nat, e: Event, alive: bool)
    requires Good(s) && c < |s.calls| && LogGood(s.log + [e])
    requires e.TakenOut? && e.dir == s.calls[c].dir && e.call == c && e.victim.None? && FileOf(s, e.dir).Some?
    ensures var named := FileOf(s, e.dir).value;
            LogGood(s.log + [e] + [FileKill(c, e.dir, named, AliveNumber(s, named, alive))])
  {
    var named := FileOf(s, e.dir).value;
    NamedAfterOne(s.log, e, e.dir);
    assert Linked(s.log, named.proc, s.procs[named.proc]);
    assert named.Bash? ==> (Ended(named.proc) in s.log + [e] <==> Ended(named.proc) in s.log);
    LogGoodWith(s.log + [e], FileKill(c, e.dir, named, AliveNumber(s, named, alive)));
  }

  lemma LaunchFits(s: State, c: nat)
    requires Good(s) && c < |s.calls| && s.calls[c].stage == Launching
    ensures LogGood(Launch(s, c).log)
  {
    var call := s.calls[c];
    assert CallGood(s.log, c, call);
    var e := Launched(call.dir, |s.procs|, c, call.restarts, Entry(s, call.dir));
    forall f | f in s.log && f.Launched? ensures f.proc < |s.procs| { assert Known(f, |s.procs|); }
    LogGoodWith(s.log, e);
  }

  lemma RestartFits(s: State, p: nat)
    requires Good(s) && Untouched(s, p)
    ensures LogGood(s.log + [RestartBegun(s.procs[p].dir, p, |s.calls|)])
  {
    assert NeverSignalled(s.log, p) by {
      forall e | e in s.log ensures (e.KillTried? ==> e.proc != p) && (e.FileKill? ==> e.named != Bash(p)) {
        assert e.KillTried? ==> Out(s, e.proc);
        assert e.FileKill? && e.named.Bash? ==> Out(s, e.named.proc);
      }
    }
    LogGoodWith(s.log, RestartBegun(s.procs[p].dir, p, |s.calls|));
  }

  lemma SteppedFits(s: State, c: nat, found: Found, launches: bool)
    requires Good(s) && c < |s.calls|
    ensures LogGood(Stepped(s, c, found, launches).log)
  {
    var call := s.calls[c];
    assert CallGood(s.log, c, call);
    match call.stage
    case Begun => LogGoodWith(s.log, Cleared(call.dir, c, call.restarts, Entry(s, call.dir)));
    case Stopping => TakeOutFits(s, c, launches);
    case Killing(victim) => KillFits(s, c, victim);
    case Cleaning => LogGoodWith(s.log, Cleaned(call.dir, c));
    case Launching => LaunchFits(s, c);
    case Returned =>
  }

  lemma SettledFits(s: State, p: nat, alive: bool, children: bool, healthScript: bool)
    requires Good(s) && p < |s.procs| && s.procs[p].pc.Settling?
    ensures LogGood(Settled(s, p, alive, children, healthScript).log)
  {
    assert ProcGood(s.procs[p]);
    if FindsNumber(s, p, alive) { TouchFits(s, p, PidStore); }
    else if children && IsCurrent(s, p) { TouchFits(s, p, GroupStore); }
    else if healthScript { TouchFits(s, p, HealthStore); }
    else { TouchFits(s, p, SettleDelete); }
  }

  lemma TickedFits(s: State, p: nat, stable: bool, dead: bool)
    requires Good(s) && p < |s.procs| && s.procs[p].pc.Watching?
    ensures LogGood(Ticked(s, p, stable, dead).log)
  {
    assert ProcGood(s.procs[p]);
    if IsCurrent(s, p) {
      TouchFits(s, p, WatchDelete);
      BackOffFits(Touch(s, p, WatchDelete), p);
    }
  }

  lemma ExitedFits(s: State, p: nat, crashed: bool)
    requires Good(s) && p < |s.procs| && s.procs[p].pc.Waiting?
    ensures LogGood(Exited(s, p, crashed).log)
  {
    assert ProcGood(s.procs[p]);
    LogGoodWith(s.log, Ended(p));
    BackOffFits(Record(s, Ended(p)), p);
  }

  lemma JudgedFits(s: State, p: nat, healthy: bool)
    requires Good(s) && p < |s.procs| && s.procs[p].pc.Probing?
    ensures LogGood(Judged(s, p, healthy).log)
  {
    assert ProcGood(s.procs[p]);
    TouchFits(s, p, HealthDelete);
    BackOffFits(Touch(s, p, HealthDelete), p);
  }

  lemma MovedFits(s: State, p: nat, m: Move)
    requires Good(s) && p < |s.procs|
    ensures LogGood(Moved(s, p, m).log)
  {
    match m
    case Exit(crashed) => if s.procs[p].pc.Waiting? { ExitedFits(s, p, crashed); }
    case Write =>
      if s.procs[p].pc.Waiting? {
        assert Linked(s.log, p, s.procs[p]);
        LogGoodWith(s.log, Wrote(s.procs[p].dir, p));
      }
    case Settle(alive, children, health) => if s.procs[p].pc.Settling? { SettledFits(s, p, alive, children, health); }
    case Tick(stable, dead) => if s.procs[p].pc.Watching? { TickedFits(s, p, stable, dead); }
    case Verdict(healthy) => if s.procs[p].pc.Probing? { JudgedFits(s, p, healthy); }
    case BackoffOver => if s.procs[p].pc.BackingOff? && IsCurrent(s, p) { RestartFits(s, p); }
  }

  lemma LogKept(s: State, a: Action)
    requires Good(s)
    ensures LogGood(Apply(s, a).log)
  {
    match a
    case Step(c, found, launches) => if c < |s.calls| { SteppedFits(s, c, found, launches); }
    case Run(p, m) => if p < |s.procs| { MovedFits(s, p, m); }
    case _ =>
  }

  lemma GoodKept(s: State, a: Action)
    requires Good(s)
    ensures Good(Apply(s, a))
  {
    RegistryKept(s, a);
    ProcsKept(s, a);
    EntriesKept(s, a);
    LinksKept(s, a);
    CallsKept(s, a);
    UntouchedKept(s, a);
    FilesKept(s, a);
    VictimsKept(s, a);
    LogKept(s, a);
  }

  lemma {:induction false} AlwaysGood(acts: seq<Action>)
    ensures Good(Exec(Initial, acts))
  {
    if acts != [] {
      AlwaysGood(acts[..|acts| - 1]);
      GoodKept(Exec(Initial, acts[..|acts| - 1]), acts[|acts| - 1]);
    }
  }
}
