/** gosrc/actions/executor.go: a health check waits fifteen seconds, outside the queue, and then looks at
    whatever application runs in the directory. Which application a pass is about, over every run of the
    interleaved model. */
module HistoryChecks {
  import opened Wrappers
  import opened History
  import opened HistoryRuns

  // ---------------------------------------------------------------- Who started what

  predicate StartedIn(e: Event, dir: string) {
    e.Built? && e.runs && e.dir == dir
  }

  /** The event that last started the application of a directory, by the log. */
  function StartOf(log: seq<Event>, dir: string): Option<nat> {
    if log == [] then None
    else if StartedIn(log[|log| - 1], dir) then Some(|log| - 1)
    else StartOf(log[..|log| - 1], dir)
  }

  /** Event m is the last before i to start the application of the directory. */
  ghost predicate StartedLast(log: seq<Event>, i: nat, dir: string, m: nat) {
    m < i <= |log| && StartedIn(log[m], dir) && forall k | m < k < i :: !StartedIn(log[k], dir)
  }

  /** Event b is the job's last build before i, and was of this commit in this directory. */
  ghost predicate OwnBuild(log: seq<Event>, i: nat, t: nat, dir: string, hash: string, b: nat) {
    && b < i <= |log| && log[b].Built? && log[b].dir == dir && log[b].job == t && log[b].hash == hash
    && forall k | b < k < i && log[k].Built? :: log[k].job != t
  }

  ghost predicate HasOwnBuild(log: seq<Event>, t: nat, dir: string, hash: string) {
    exists b :: OwnBuild(log, |log|, t, dir, hash, b)
  }

  /** The stages between the end of a build and the end of its health check. */
  predicate AfterBuild(stage: Stage) {
    stage.Checking? || stage.Probing? || stage.Marking? || (stage.Promoting? && stage.rollback)
  }

  ghost predicate StartsGood(s: State) {
    && (forall d :: StartOf(s.log, d) == LastStart(s, d))
    && (forall e | e in s.log && e.Built? :: e.job < |s.jobs|)
  }

  ghost predicate JobBuilt(log: seq<Event>, t: nat, j: Job) {
    AfterBuild(j.stage) ==> HasOwnBuild(log, t, j.dir, j.stage.hash)
  }

  ghost predicate JobsBuilt(s: State) {
    forall t: nat | t < |s.jobs| :: JobBuilt(s.log, t, s.jobs[t])
  }

  ghost predicate PassFits(log: seq<Event>, e: Event) {
    e.Passed? ==> e.of == StartOf(log, e.dir) && HasOwnBuild(log, e.job, e.dir, e.hash)
  }

  ghost predicate PassFitsAt(log: seq<Event>, i: nat)
    requires i < |log|
  {
    PassFits(log[..i], log[i])
  }

  ghost predicate PassesGood(log: seq<Event>) {
    forall i | 0 <= i < |log| :: PassFitsAt(log, i)
  }

  lemma StartAfterOne(log: seq<Event>, e: Event, dir: string)
    ensures StartOf(log + [e], dir) == if StartedIn(e, dir) then Some(|log|) else StartOf(log, dir)
  {
    assert (log + [e])[..|log|] == log;
  }

  lemma PassesGoodWith(log: seq<Event>, e: Event)
    requires PassesGood(log) && PassFits(log, e)
    ensures PassesGood(log + [e])
  {
    forall i | 0 <= i < |log + [e]| ensures PassFitsAt(log + [e], i) {
      if i < |log| {
        assert PassFitsAt(log, i) && (log + [e])[..i] == log[..i];
      } else {
        assert (log + [e])[..i] == log;
      }
    }
  }

  lemma BuildStays(log: seq<Event>, e: Event, t: nat, dir: string, hash: string)
    requires HasOwnBuild(log, t, dir, hash) && (e.Built? ==> e.job != t)
    ensures HasOwnBuild(log + [e], t, dir, hash)
  {
    var b: nat :| OwnBuild(log, |log|, t, dir, hash, b);
    assert OwnBuild(log + [e], |log + [e]|, t, dir, hash, b);
  }

  // ---------------------------------------------------------------- Every step keeps it

  /** One step of a job logs one event at most. */
  lemma OneEvent(s: State, t: nat, ans: Answer)
    requires t < |s.jobs|
    ensures |Logged(s, t, ans)| <= 1
  {
  }

  lemma StartsKept(s: State, a: Action)
    requires StartsGood(s)
    ensures StartsGood(Apply(s, a))
  {
    var u := Apply(s, a);
    forall d ensures StartOf(u.log, d) == LastStart(u, d) {
      if u.log != s.log { StartAfterOne(s.log, u.log[|s.log|], d); }
      NewEvent(s, a);
    }
    NewEvent(s, a);
  }

  /** What a step adds to the log, and when it starts an application. */
  lemma NewEvent(s: State, a: Action)
    ensures var u := Apply(s, a);
            && (u.log == s.log || (|u.log| == |s.log| + 1 && u.log == s.log + [u.log[|s.log|]]))
            && |s.jobs| <= |u.jobs|
            && (u.log == s.log || !u.log[|s.log|].Built? ==> u.started == s.started)
            && (u.log != s.log && u.log[|s.log|].Built? ==>
                  var e := u.log[|s.log|];
                  && a.Step? && e.job == a.job < |s.jobs|
                  && u.started == if e.runs then s.started[e.dir := |s.log|] else s.started)
  {
    if a.Step? && a.job < |s.jobs| { OneEvent(s, a.job, a.answer); }
  }

  lemma SteppedJob(s: State, t: nat, ans: Answer)
    requires t < |s.jobs| && s.jobs[t].stage != Finished && JobBuilt(s.log, t, s.jobs[t])
    ensures var u := Apply(s, Step(t, ans));
            t < |u.jobs| && JobBuilt(u.log, t, u.jobs[t])
  {
    var u, j := Apply(s, Step(t, ans)), s.jobs[t];
    OneEvent(s, t, ans);
    if Builds(j, ans) {
      assert OwnBuild(u.log, |u.log|, t, j.dir, j.stage.hash, |s.log|);
    } else if AfterBuild(j.stage) && Logged(s, t, ans) != [] {
      BuildStays(s.log, Logged(s, t, ans)[0], t, j.dir, j.stage.hash);
      assert u.log == s.log + [Logged(s, t, ans)[0]];
    } else if Logged(s, t, ans) == [] {
      assert u.log == s.log;
    }
  }

  lemma OtherJob(s: State, a: Action, t: nat)
    requires t < |s.jobs| && JobBuilt(s.log, t, s.jobs[t]) && !(a.Step? && a.job == t)
    ensures t < |Apply(s, a).jobs| && Apply(s, a).jobs[t] == s.jobs[t] && JobBuilt(Apply(s, a).log, t, s.jobs[t])
  {
    var u := Apply(s, a);
    NewEvent(s, a);
    if u.log != s.log && AfterBuild(s.jobs[t].stage) {
      BuildStays(s.log, u.log[|s.log|], t, s.jobs[t].dir, s.jobs[t].stage.hash);
    }
  }

  lemma JobsBuiltKept(s: State, a: Action)
    requires JobsBuilt(s)
    ensures JobsBuilt(Apply(s, a))
  {
    var u := Apply(s, a);
    forall t: nat | t < |u.jobs| ensures JobBuilt(u.log, t, u.jobs[t]) {
      if t < |s.jobs| {
        if a.Step? && a.job == t && s.jobs[t].stage != Finished {
          SteppedJob(s, t, a.answer);
        } else if !(a.Step? && a.job == t) {
          OtherJob(s, a, t);
        }
      }
    }
  }

  lemma PassesKept(s: State, a: Action)
    requires StartsGood(s) && JobsBuilt(s) && PassesGood(s.log)
    ensures PassesGood(Apply(s, a).log)
  {
    var u := Apply(s, a);
    NewEvent(s, a);
    if u.log != s.log {
      NewPassFits(s, a);
      PassesGoodWith(s.log, u.log[|s.log|]);
    }
  }

  lemma NewPassFits(s: State, a: Action)
    requires StartsGood(s) && JobsBuilt(s) && |Apply(s, a).log| > |s.log|
    ensures PassFits(s.log, Apply(s, a).log[|s.log|])
  {
    if a.Step? && a.job < |s.jobs| {
      var j := s.jobs[a.job];
      OneEvent(s, a.job, a.answer);
      assert JobBuilt(s.log, a.job, j);
      assert StartOf(s.log, j.dir) == LastStart(s, j.dir);
    }
  }

  lemma {:induction false} AlwaysStarted(acts: seq<Action>)
    ensures StartsGood(Exec(Initial, acts)) && JobsBuilt(Exec(Initial, acts)) && PassesGood(Exec(Initial, acts).log)
  {
    if acts != [] {
      var s, a := Exec(Initial, acts[..|acts| - 1]), acts[|acts| - 1];
      AlwaysStarted(acts[..|acts| - 1]);
      StartsKept(s, a);
      JobsBuiltKept(s, a);
      PassesKept(s, a);
    }
  }

  // ---------------------------------------------------------------- Which application a pass is about

  lemma {:induction false} StartOfExactly(log: seq<Event>, dir: string, m: nat)
    ensures StartOf(log, dir) == Some(m) <==> StartedLast(log, |log|, dir, m)
  {
    if log != [] {
      var n := |log| - 1;
      var front := log[..n];
      StartOfExactly(front, dir, m);
      if StartedIn(log[n], dir) {
        assert StartedLast(log, |log|, dir, m) <==> m == n;
      } else {
        assert m < n ==> forall k | m <= k < n :: log[k] == front[k];
      }
    }
  }

  /** For every run: a job whose health check passes has built its commit before. The pass is about the
      application that was started last in the directory, if any was. That is its own exactly if its build
      found a run.sh and no other application has been started in the directory since. */
  lemma PassIsOwnExactly(acts: seq<Action>, i: nat)
    requires i < |Exec(Initial, acts).log| && Exec(Initial, acts).log[i].Passed?
    ensures var log := Exec(Initial, acts).log;
            var e := log[i];
            && (forall m: nat :: e.of == Some(m) <==> StartedLast(log, i, e.dir, m))
            && exists b: nat ::
                 && OwnBuild(log, i, e.job, e.dir, e.hash, b)
                 && (e.of == Some(b) <==> log[b].runs && forall k | b < k < i :: !StartedIn(log[k], e.dir))
  {
    AlwaysStarted(acts);
    PassIsOwn(Exec(Initial, acts).log, i);
  }

  lemma PassIsOwn(log: seq<Event>, i: nat)
    requires PassesGood(log) && i < |log| && log[i].Passed?
    ensures forall m: nat :: log[i].of == Some(m) <==> StartedLast(log, i, log[i].dir, m)
    ensures exists b: nat ::
              && OwnBuild(log, i, log[i].job, log[i].dir, log[i].hash, b)
              && (log[i].of == Some(b) <==> log[b].runs && forall k | b < k < i :: !StartedIn(log[k], log[i].dir))
  {
    var e, prefix := log[i], log[..i];
    assert PassFitsAt(log, i);
    assert forall k | 0 <= k < i :: log[k] == prefix[k];
    forall m: nat ensures e.of == Some(m) <==> StartedLast(log, i, e.dir, m) {
      StartOfExactly(prefix, e.dir, m);
      assert StartedLast(log, i, e.dir, m) <==> StartedLast(prefix, i, e.dir, m);
    }
    var b: nat :| OwnBuild(prefix, i, e.job, e.dir, e.hash, b);
    assert OwnBuild(log, i, e.job, e.dir, e.hash, b);
    assert StartedLast(log, i, e.dir, b) <==> log[b].runs && forall k | b < k < i :: !StartedIn(log[k], e.dir);
  }

  // ---------------------------------------------------------------- A pass that is about another commit

  ghost predicate Reached(s: State) {
    exists acts :: Exec(Initial, acts) == s
  }

  lemma ReachedOn(s: State, a: Action)
    requires Reached(s)
    ensures Reached(Apply(s, a))
  {
    var acts :| Exec(Initial, acts) == s;
    assert (acts + [a])[..|acts|] == acts;
    assert Exec(Initial, acts + [a]) == Apply(s, a);
  }

  lemma Asked(s: State, dir: string, p: int) returns (u: State)
    requires Reached(s) && p in s.users && s.users[p] == dir
    ensures Reached(u) && u == s.(jobs := u.jobs) && u.jobs == s.jobs + [Job(dir, Syncing(p), 0, 0, 0)]
  {
    ReachedOn(s, Deploy(dir, p));
    u := Apply(s, Deploy(dir, p));
  }

  lemma Synced(s: State, t: nat, p: int, hash: string) returns (u: State)
    requires Reached(s) && t < |s.jobs| && s.jobs[t].stage == Syncing(p) && p in s.users
    ensures Reached(u) && u.users == s.users && u.nextId == s.nextId + 1 && u.log == s.log && u.started == s.started
    ensures u.rows == s.rows + [Row(s.nextId, p, hash, "", Webhook, Intermediate)]
    ensures u.jobs == s.jobs[t := s.jobs[t].(stage := Building(p, hash), steps := s.jobs[t].steps + 1)]
  {
    ReachedOn(s, Step(t, Answer(true, hash, p, true)));
    u := Apply(s, Step(t, Answer(true, hash, p, true)));
  }

  /** A deploy up to its health check. */
  lemma DeploysAndStarts(s: State, dir: string, p: int, hash: string) returns (u: State)
    requires Reached(s) && p in s.users && s.users[p] == dir
    ensures Reached(u) && u.users == s.users && u.nextId == s.nextId + 1
    ensures u.jobs == s.jobs + [Job(dir, Checking(hash, 0), 2, 1, 0)]
    ensures u.rows == s.rows + [Row(s.nextId, p, hash, "", Webhook, Intermediate)]
    ensures u.log == s.log + [Built(dir, |s.jobs|, hash, true)] && u.started == s.started[dir := |s.log|]
  {
    var t := |s.jobs|;
    var s1 := Asked(s, dir, p);
    var s2 := Synced(s1, t, p, hash);
    ReachedOn(s2, Step(t, Answer(true, hash, p, true)));
    u := Apply(s2, Step(t, Answer(true, hash, p, true)));
  }

  /** One successful step of a job. */
  lemma Succeeds(s: State, t: nat, p: int, hash: string) returns (u: State)
    requires Reached(s) && t < |s.jobs| && s.jobs[t].stage != Finished
    requires !s.jobs[t].stage.Syncing? && !Starts(s.jobs[t], Answer(true, hash, p, true))
    ensures Reached(u) && u.users == s.users && u.started == s.started
    ensures u.jobs == s.jobs[t := Advanced(s, s.jobs[t], Answer(true, hash, p, true))]
    ensures u.rows == Database(s, s.jobs[t], Answer(true, hash, p, true)).rows
    ensures u.log == s.log + Logged(s, t, Answer(true, hash, p, true))
  {
    ReachedOn(s, Step(t, Answer(true, hash, p, true)));
    u := Apply(s, Step(t, Answer(true, hash, p, true)));
  }

  /** A health check that passes, and the promotion that follows. */
  lemma Passes(s: State, t: nat, p: int, hash: string) returns (u: State)
    requires Reached(s) && t < |s.jobs| && s.jobs[t].stage == Checking(hash, 0)
    requires p > 0 && p in s.users && s.users[p] == s.jobs[t].dir
    ensures Reached(u) && u.users == s.users && u.started == s.started
    ensures |u.jobs| == |s.jobs| && forall v | 0 <= v < |s.jobs| && v != t :: u.jobs[v] == s.jobs[v]
    ensures u.rows == WithCurrent(s.rows, p, hash)
    ensures u.log == s.log + [Passed(s.jobs[t].dir, hash, t, LastStart(s, s.jobs[t].dir))]
                     + [MarkedCurrent(s.jobs[t].dir, hash)]
  {
    var s1 := Succeeds(s, t, p, hash);
    assert s1.log == s.log;
    var s2 := Succeeds(s1, t, p, hash);
    u := Succeeds(s2, t, p, hash);
  }

  /** Two deploys of a project, the second built before the check of the first: the check of the first looks
      at the application of the second, passes, and makes the older commit current again while the newer one
      is running. */
  lemma OlderCommitTakesOver(dir: string, older: string, newer: string) returns (s: State)
    ensures Reached(s) && 1 in s.users && s.users[1] == dir
    ensures CurrentHash(s.rows, 1) == Some(older) && LastStart(s, dir) == Some(1)
    ensures Built(dir, 1, newer, true) in s.log && Passed(dir, older, 0, Some(1)) in s.log
  {
    var s1 := TwoBuilds(dir, older, newer);
    var s2 := Passes(s1, 1, 1, newer);
    s := Passes(s2, 0, 1, older);
    OlderIsCurrent(s1.rows, older, newer);
    assert s.log[1] == Built(dir, 1, newer, true) && s.log[4] == Passed(dir, older, 0, Some(1));
    assert s.log[1] in s.log && s.log[4] in s.log;
  }

  lemma TwoBuilds(dir: string, older: string, newer: string) returns (s: State)
    ensures Reached(s) && 1 in s.users && s.users[1] == dir
    ensures s.jobs == [Job(dir, Checking(older, 0), 2, 1, 0), Job(dir, Checking(newer, 0), 2, 1, 0)]
    ensures |s.rows| == 2 && Of(s.rows[0], 1, older) && LastStart(s, dir) == Some(1)
    ensures s.log == [Built(dir, 0, older, true), Built(dir, 1, newer, true)]
  {
    assert Exec(Initial, []) == Initial;
    ReachedOn(Initial, CreateProject(dir));
    var s1 := Apply(Initial, CreateProject(dir));
    var s2 := DeploysAndStarts(s1, dir, 1, older);
    s := DeploysAndStarts(s2, dir, 1, newer);
  }

  lemma OlderIsCurrent(rows: seq<Row>, older: string, newer: string)
    requires |rows| == 2 && Of(rows[0], 1, older)
    ensures CurrentHash(WithCurrent(WithCurrent(rows, 1, newer), 1, older), 1) == Some(older)
  {
    var once := WithCurrent(rows, 1, newer);
    WithCurrentExactly(rows, 1, newer);
    assert Of(once[0], 1, older);
    CurrentAfterSet(once, 1, older);
  }
}
