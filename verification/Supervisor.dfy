/** gosrc/actions/pm.go: the registry, the process records and the app.pid files as the code keeps them, each
    stretch of code between two waits as one method. Every method takes exactly one step of the Watchdog model. */
module Supervisor {
  import opened Wrappers
  import opened Watchdog

  class ManagedProcess {
    const dir: string
    /** Its number in order of launch. */
    ghost const id: nat
    var mode: Mode
    var extPid: Option<Named>
    var restartCount: nat

    constructor (dir: string, ghost id: nat)
      ensures this.dir == dir && this.id == id && mode == Blocking && extPid == None && restartCount == 0
    {
      this.dir, mode, extPid, restartCount := dir, Blocking, None, 0;
      this.id := id;
    }
  }

  /** What the first half of a stop leaves. */
  lemma TakeOutLeaves(s: State, c: nat, alive: bool)
    requires c < |s.calls|
    ensures var t, dir := TakeOut(s, c, alive), s.calls[c].dir;
            && t.registry == s.registry - {dir} && t.files == s.files && t.procs == s.procs
            && (dir !in s.registry && dir in s.files ==>
                  t.log[|t.log| - 1] == FileKill(c, dir, s.files[dir], AliveNumber(s, s.files[dir], alive)))
  {
  }

  lemma LaunchLeaves(s: State, c: nat)
    requires c < |s.calls| && s.calls[c].start && s.calls[c].stage == Launching
    ensures var t, dir, p := Apply(s, Step(c, RunScript, true)), s.calls[c].dir, |s.procs|;
            && t.registry == s.registry[dir := p] && t.files == s.files[dir := Bash(p)]
            && t.procs == s.procs + [Proc(dir, Blocking, None, 0, Waiting)]
  {
  }

  lemma SettleDecides(s: State, i: nat, alive: bool, children: bool, healthScript: bool)
    requires i < |s.procs| && s.procs[i].pc == Settling
    ensures var t, finds := Apply(s, Run(i, Settle(alive, children, healthScript))), FindsNumber(s, i, alive);
            && (finds ==> t == Watched(s, i, Delegating, FileOf(s, s.procs[i].dir), PidStore))
            && (!finds && children && IsCurrent(s, i) ==> t == Watched(s, i, Background, None, GroupStore))
            && (!finds && !(children && IsCurrent(s, i)) ==>
                  t == if healthScript then Watched(s, i, Delegating, None, HealthStore)
                       else GoesTo(Touch(s, i, SettleDelete), i, Gone))
  {
  }

  class Supervisor {
    var registry: map<string, ManagedProcess>
    /** What app.pid of each directory holds. */
    var files: map<string, Named>
    /** Every process ever launched, in order. */
    ghost var procs: seq<ManagedProcess>
    ghost var s: State

    ghost predicate Valid()
      reads this, procs
    {
      && |procs| == |s.procs| && files == s.files
      && (forall i | 0 <= i < |procs| :: procs[i].id == i && Shows(procs[i], s.procs[i]))
      && registry.Keys == s.registry.Keys
      && (forall d | d in registry :: s.registry[d] < |procs| && registry[d] == procs[s.registry[d]])
    }

    static ghost predicate Shows(p: ManagedProcess, proc: Proc)
      reads p
    {
      p.dir == proc.dir && p.mode == proc.mode && p.extPid == proc.extPid && p.restartCount == proc.restartCount
    }

    constructor ()
      ensures Valid() && s == Initial
    {
      registry, files, procs, s := map[], map[], [], Initial;
    }

    /** Pointer equality with the registered process. */
    method IsCurrentProcess(p: ManagedProcess, ghost i: nat) returns (current: bool)
      requires Valid() && i < |procs| && p == procs[i]
      ensures current <==> IsCurrent(s, i)
    {
      current := p.dir in registry && registry[p.dir] == p;
    }

    /** StartAppProcess up to its stop of the old process: whether it gets there. Without a run.sh the entry
        is deleted, whoever is there. */
    method LookForScripts(dir: string, ghost c: nat, found: Found) returns (proceeds: bool)
      requires Valid() && c < |s.calls| && s.calls[c].dir == dir && s.calls[c].start && s.calls[c].stage == Begun
      modifies this`registry, this`s
      ensures Valid() && s == Apply(old(s), Step(c, found, true))
      ensures proceeds <==> s.calls[c].stage == Stopping
      ensures registry == if found == NoRunScript then old(registry) - {dir} else old(registry)
    {
      proceeds := found == RunScript;
      if found == NoRunScript {
        registry := registry - {dir};
      }
      s := Stepped(s, c, found, true);
    }

    /** StartAppProcess, last step: a fresh record, whatever the old one had counted. The number of its bash
        goes into app.pid. */
    method Launch(dir: string, ghost c: nat, bash: Named) returns (p: ManagedProcess)
      requires Valid() && c < |s.calls| && s.calls[c].dir == dir && s.calls[c].start && s.calls[c].stage == Launching
      requires bash == Bash(|procs|)
      modifies this
      ensures Valid() && fresh(p) && procs == old(procs) + [p] && s == Apply(old(s), Step(c, RunScript, true))
      ensures registry == old(registry)[dir := p] && files == old(files)[dir := bash]
    {
      LaunchLeaves(s, c);
      p := new ManagedProcess(dir, |procs|);
      Register(p, bash, Apply(s, Step(c, RunScript, true)));
    }

    /** The new record goes under its directory, and the number of its bash into app.pid. */
    method Register(p: ManagedProcess, bash: Named, ghost t: State)
      requires Valid() && p !in procs && p.id == |procs|
      requires p.mode == Blocking && p.extPid == None && p.restartCount == 0
      requires t.procs == s.procs + [Proc(p.dir, Blocking, None, 0, Waiting)]
      requires t.registry == s.registry[p.dir := |procs|] && t.files == s.files[p.dir := bash]
      modifies this
      ensures Valid() && s == t && procs == old(procs) + [p]
      ensures registry == old(registry)[p.dir := p] && files == old(files)[p.dir := bash]
    {
      registry := registry[p.dir := p];
      files := files[p.dir := bash];
      procs := procs + [p];
      s := t;
    }

    /** restartWithBackoff up to its sleep; None when it gives up. */
    method RestartWithBackoff(p: ManagedProcess, ghost i: nat) returns (delay: Option<nat>)
      requires Valid() && i < |procs| && p == procs[i]
      modifies this`s, p`restartCount
      ensures Valid() && s == BackOff(old(s), i)
      ensures s.log == old(s).log + [if delay.Some? then BackoffBegun(i, delay.value) else GivenUp(i)]
      ensures p.restartCount == old(p.restartCount) + 1 && (delay.Some? <==> old(p.restartCount) < 10)
      ensures delay.Some? ==>
                delay.value == [2, 5, 15, 30, 60, 120][if old(p.restartCount) < 6 then old(p.restartCount) else 5]
    {
      s := BackOff(s, i);
      p.restartCount := p.restartCount + 1;
      if p.restartCount > MAX_RESTARTS {
        return None;
      }
      var idx := p.restartCount - 1;
      if idx >= |BACKOFF_SCHEDULE| {
        idx := |BACKOFF_SCHEDULE| - 1;
      }
      return Some(BACKOFF_SCHEDULE[idx]);
    }

    /** The goroutine moves on, or ends; the records do not show it. */
    ghost method GoTo(i: nat, pc: Pc)
      requires Valid() && i < |procs|
      modifies this`s
      ensures Valid() && s == GoesTo(old(s), i, pc)
    {
      s := GoesTo(s, i, pc);
    }

    /** Something happened that touches no entry. */
    ghost method Note(e: Event)
      requires Valid() && e.Ended?
      modifies this`s
      ensures Valid() && s == Record(old(s), e)
    {
      s := Record(s, e);
    }

    /** monitorProcess when bash has ended: the delay before a restart, if there is to be one. */
    method BashEnded(p: ManagedProcess, ghost i: nat, crashed: bool) returns (delay: Option<nat>)
      requires Valid() && i < |procs| && p == procs[i] && s.procs[i].pc == Waiting
      modifies this`s, p`restartCount
      ensures Valid() && s == Apply(old(s), Run(i, Exit(crashed)))
      ensures delay.Some? <==> crashed && IsCurrent(old(s), i) && old(p.restartCount) < 10
      ensures delay.Some? ==> s.log == old(s).log + [Ended(i)] + [BackoffBegun(i, delay.value)]
    {
      var current := IsCurrentProcess(p, i);
      Note(Ended(i));
      if crashed && current {
        delay := RestartWithBackoff(p, i);
        return;
      }
      GoTo(i, if crashed then Gone else Settling);
      return None;
    }

    /** The record is marked and stored under its directory, whoever is there. A background service has the
        number of its first child written into app.pid. */
    method Store(p: ManagedProcess, ghost i: nat, mode: Mode, extPid: Option<Named>, child: Option<Named>,
                 ghost site: Site)
      requires Valid() && i < |procs| && p == procs[i] && Stores(site)
      requires child == if site.GroupStore? then Some(Child(i)) else None
      modifies this`registry, this`files, this`s, p`mode, p`extPid
      ensures Valid() && s == Watched(old(s), i, mode, extPid, site) && registry == old(registry)[p.dir := p]
      ensures files == if child.Some? then old(files)[p.dir := child.value] else old(files)
    {
      p.mode, p.extPid := mode, extPid;
      if child.Some? {
        files := files[p.dir := child.value];
      }
      registry := registry[p.dir := p];
      s := Watched(s, i, mode, extPid, site);
    }

    /** The entry is deleted, whoever is there; app.pid stays. */
    method Delete(p: ManagedProcess, ghost i: nat, ghost site: Site)
      requires Valid() && i < |procs| && p == procs[i] && (site.WatchDelete? || site.HealthDelete?)
      modifies this`registry, this`s
      ensures Valid() && s == Touch(old(s), i, site) && registry == old(registry) - {p.dir}
    {
      registry := registry - {p.dir};
      s := Touch(s, i, site);
    }

    /** StopAppProcess, first half: the entry is taken out before anything is killed. Without one the number in
        app.pid is read, and that is signalled if it is `alive`. */
    method TakeOut(dir: string, ghost c: nat, alive: bool)
      returns (victim: Option<ManagedProcess>, signalled: Option<Named>)
      requires Valid() && c < |s.calls| && s.calls[c].dir == dir && s.calls[c].stage == Stopping
      requires dir in files && files[dir].Bash? ==> alive == AliveNumber(s, files[dir], alive)
      modifies this`registry, this`s
      ensures Valid() && s == Apply(old(s), Step(c, RunScript, alive))
      ensures victim == if dir in old(registry) then Some(old(registry)[dir]) else None
      ensures registry == old(registry) - {dir}
      ensures signalled == if victim.None? && dir in files && alive then Some(files[dir]) else None
      ensures signalled.Some? ==> s.log[|s.log| - 1] == FileKill(c, dir, signalled.value, true)
    {
      TakeOutLeaves(s, c, alive);
      victim, signalled := None, None;
      if dir in registry {
        victim := Some(registry[dir]);
        registry := registry - {dir};
      } else if dir in files && alive {
        signalled := Some(files[dir]);
      }
      s := Watchdog.TakeOut(s, c, alive);
    }

    /** StopAppProcess, second half: the switch on the record's mode. `groupFound` is whether bash's process
        group can still be looked up. */
    method KillVictim(p: ManagedProcess, ghost i: nat, ghost c: nat, groupFound: bool) returns (hit: bool)
      requires Valid() && i < |procs| && p == procs[i] && c < |s.calls| && Victim(s.calls[c], i)
      requires groupFound <==> s.procs[i].pc == Waiting
      modifies this`s
      ensures Valid() && s == Apply(old(s), Step(c, RunScript, true)) && s.log == old(s).log + [KillTried(c, i, hit)]
    {
      match p.mode {
        case Delegating => hit := p.extPid.Some?;
        case Background => hit := groupFound;
        case Blocking => hit := groupFound;
      }
      s := Kill(s, c, i);
    }

    /** The end of StopAppProcess, and for a start the removal that follows it. */
    method CleanUp(dir: string, ghost c: nat)
      requires Valid() && c < |s.calls| && s.calls[c].dir == dir && s.calls[c].stage == Cleaning
      modifies this`files, this`s
      ensures Valid() && s == Apply(old(s), Step(c, RunScript, true)) && files == old(files) - {dir}
    {
      files := files - {dir};
      s := Watchdog.CleanUp(s, c);
    }

    /** monitorProcess after the pause that follows a clean exit. `bash` is the number of the process's own
        bash, `alive` whether the number in app.pid is alive, `child` the first child left in the group. */
    method Settle(p: ManagedProcess, ghost i: nat, bash: Named, alive: bool, child: Option<Named>, healthScript: bool)
      requires Valid() && i < |procs| && p == procs[i] && s.procs[i].pc == Settling
      requires bash == Bash(i) && (child.Some? ==> child == Some(Child(i)))
      requires p.dir in files && files[p.dir].Bash? ==> alive == AliveNumber(s, files[p.dir], alive)
      modifies this`registry, this`files, this`s, p`mode, p`extPid
      ensures Valid() && s == Apply(old(s), Run(i, Watchdog.Settle(alive, child.Some?, healthScript)))
    {
      var current := IsCurrentProcess(p, i);
      SettleDecides(s, i, alive, child.Some?, healthScript);
      if p.dir in files && files[p.dir] != bash && alive && current {
        Store(p, i, Delegating, Some(files[p.dir]), None, PidStore);
      } else if child.Some? && current {
        Store(p, i, Background, None, child, GroupStore);
      } else if healthScript {
        Store(p, i, Delegating, None, None, HealthStore);
      } else {
        Forget(p, i);
      }
    }

    /** Nothing to track: app.pid and the entry are deleted, whoever is there. */
    method Forget(p: ManagedProcess, ghost i: nat)
      requires Valid() && i < |procs| && p == procs[i]
      modifies this`registry, this`files, this`s
      ensures Valid() && s == GoesTo(Touch(old(s), i, SettleDelete), i, Gone)
      ensures registry == old(registry) - {p.dir} && files == old(files) - {p.dir}
    {
      files := files - {p.dir};
      registry := registry - {p.dir};
      s := GoesTo(Touch(s, i, SettleDelete), i, Gone);
    }

    /** run.sh writes the number of a process it has started into app.pid. */
    method PidFileWritten(p: ManagedProcess, ghost i: nat, app: Named)
      requires Valid() && i < |procs| && p == procs[i] && s.procs[i].pc == Waiting && app == App(i)
      modifies this`files, this`s
      ensures Valid() && s == Apply(old(s), Run(i, Write)) && files == old(files)[p.dir := app]
    {
      files := files[p.dir := app];
      s := Moved(s, i, Write);
    }

    method ResetCount(p: ManagedProcess, ghost i: nat, stable: bool)
      requires Valid() && i < |procs| && p == procs[i]
      modifies this`s, p`restartCount
      ensures Valid()
      ensures s == if stable && old(p.restartCount) > 0 then With(old(s), i, old(s).procs[i].(restartCount := 0))
              else old(s)
    {
      if stable && p.restartCount > 0 {
        p.restartCount := 0;
        s := With(s, i, s.procs[i].(restartCount := 0));
      }
    }

    /** One round of watchSinglePID or watchProcessGroup. */
    method Watch(p: ManagedProcess, ghost i: nat, stable: bool, dead: bool) returns (delay: Option<nat>)
      requires Valid() && i < |procs| && p == procs[i] && s.procs[i].pc == Watching && !HealthWatched(s.procs[i])
      modifies this`registry, this`s, p`restartCount
      ensures Valid() && s == Apply(old(s), Run(i, Tick(stable, dead)))
      ensures delay.Some? <==> dead && IsCurrent(old(s), i) && (stable || old(p.restartCount) < 10)
      ensures registry == if dead && IsCurrent(old(s), i) then old(registry) - {p.dir} else old(registry)
    {
      var current := IsCurrentProcess(p, i);
      if !current {
        GoTo(i, Gone);
        return None;
      }
      ResetCount(p, i, stable);
      if dead {
        Delete(p, i, WatchDelete);
        delay := RestartWithBackoff(p, i);
        return;
      }
      return None;
    }

    /** A round of watchHealthScript up to the start of its script: whether it gets there. */
    method WatchHealth(p: ManagedProcess, ghost i: nat, stable: bool) returns (runs: bool)
      requires Valid() && i < |procs| && p == procs[i] && s.procs[i].pc == Watching && HealthWatched(s.procs[i])
      modifies this`s, p`restartCount
      ensures Valid() && s == Apply(old(s), Run(i, Tick(stable, false)))
      ensures runs <==> IsCurrent(old(s), i)
    {
      runs := IsCurrentProcess(p, i);
      if !runs {
        GoTo(i, Gone);
        return;
      }
      ResetCount(p, i, stable);
      GoTo(i, Probing);
    }

    /** watchHealthScript when its script has answered, up to ten seconds later. */
    method HealthAnswered(p: ManagedProcess, ghost i: nat, healthy: bool) returns (delay: Option<nat>)
      requires Valid() && i < |procs| && p == procs[i] && s.procs[i].pc == Probing
      modifies this`registry, this`s, p`restartCount
      ensures Valid() && s == Apply(old(s), Run(i, Verdict(healthy)))
      ensures registry == if healthy then old(registry) else old(registry) - {p.dir}
      ensures delay.Some? <==> !healthy && old(p.restartCount) < 10
    {
      if healthy {
        GoTo(i, Watching);
        return None;
      }
      Delete(p, i, HealthDelete);
      delay := RestartWithBackoff(p, i);
    }

    /** restartWithBackoff after its sleep: whether it goes on to StartAppProcess. */
    method BackoffEnded(p: ManagedProcess, ghost i: nat) returns (restarts: bool)
      requires Valid() && i < |procs| && p == procs[i] && s.procs[i].pc == BackingOff
      modifies this`s
      ensures Valid() && s == Apply(old(s), Run(i, BackoffOver))
      ensures restarts <==> s.calls == old(s).calls + [Call(p.dir, true, Some(i), Begun)]
    {
      restarts := IsCurrentProcess(p, i);
      s := Restarted(s, i);
    }
  }
}
