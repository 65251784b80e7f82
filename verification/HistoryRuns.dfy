/** gosrc/actions/executor.go and gosrc/database/registry.go: deploys, health checks, automatic and manual
    rollbacks of any number of projects, interleaved in any order. A job is one goroutine; each of its
    steps is one database call or the wait for one answer. */
module HistoryRuns {
  import opened Wrappers
  import opened History

  // ---------------------------------------------------------------- States and steps

  /** Where a job stands. A project id is the one looked up by the function the job is in, 0 if none. */
  datatype Stage =
    | Syncing(project: int)
    | Building(project: int, hash: string)
    | Checking(hash: string, depth: nat)
    | Probing(project: int, hash: string, depth: nat)
    | Choosing(project: int, failed: string)
    | RollbackChosen(hash: string)
    | RollingBack(project: int, hash: string)
    | Marking(project: int, hash: string)
    | Promoting(project: int, hash: string, rollback: bool)
    | Finished

  datatype Job = Job(dir: string, stage: Stage, steps: nat, builds: nat, rollbacks: nat)

  datatype Event =
    /** A job's health check passed for its commit; `of` is the event that started the application it looked at,
        None if there is none. */
    | Passed(dir: string, hash: string, job: nat, of: Option<nat>)
    /** A job's build of its commit succeeded, and `runs` if there was a run.sh, so that it started the
        application. */
    | Built(dir: string, job: nat, hash: string, runs: bool)
    | ChosenByHand(dir: string, hash: string)
    | AutoRollback(dir: string, failed: string, hash: string)
    | MarkedCurrent(dir: string, hash: string)

  /** users maps a project to its directory; directories can be edited and need not be unique. `moved` holds
      the directories that some project was edited away from or to, `started` the event that last started the
      application of a directory. */
  datatype State = State(users: map<int, string>, nextProject: nat, rows: seq<Row>, nextId: nat,
                         jobs: seq<Job>, log: seq<Event>, moved: set<string>,
                         started: map<string, nat>)

  /** What the world answers to one step of a job: success, the commit after a sync, the project found, and
      whether a build finds a run.sh. */
  datatype Answer = Answer(ok: bool, hash: string, project: int, runs: bool)

  datatype Action =
    | CreateProject(dir: string)
    | MoveProject(project: int, dir: string)
    | DeleteProject(project: int)
    | RecordPinned(project: int, hash: string)
    | Deploy(dir: string, found: int)
    | RollBackByHand(dir: string, hash: string)
    | Step(job: nat, answer: Answer)

  const Initial := State(map[], 1, [], 1, [], [], {}, map[])

  /** GetProjectIDByDir: some project with the directory. An answer that does not fit counts as an error. */
  function Found(s: State, dir: string, project: int): int {
    if project in s.users && s.users[project] == dir then project else 0
  }

  /** AddCommitToHistory; the foreign key refuses an unknown project. */
  function Recording(s: State, project: int, hash: string, trigger: Trigger): State {
    if project in s.users then
      s.(rows := s.rows + [Row(s.nextId, project, hash, "", trigger, Intermediate)], nextId := s.nextId + 1)
    else s
  }

  function Without(rows: seq<Row>, project: int): seq<Row> {
    if rows == [] then []
    else if rows[|rows| - 1].project == project then Without(rows[..|rows| - 1], project)
    else Without(rows[..|rows| - 1], project) + [rows[|rows| - 1]]
  }

  function Apply(s: State, a: Action): State {
    match a
    case CreateProject(d) => s.(users := s.users[s.nextProject := d], nextProject := s.nextProject + 1)
    case MoveProject(p, d) =>
      if p in s.users && s.users[p] != d then s.(users := s.users[p := d], moved := s.moved + {s.users[p], d}) else s
    case DeleteProject(p) => s.(users := s.users - {p}, rows := Without(s.rows, p))
    case RecordPinned(p, h) => Recording(s, p, h, Webhook)
    case Deploy(d, q) => s.(jobs := s.jobs + [Job(d, Syncing(Found(s, d, q)), 0, 0, 0)])
    case RollBackByHand(d, h) =>
        s.(jobs := s.jobs + [Job(d, RollbackChosen(h), 0, 0, 0)], log := s.log + [ChosenByHand(d, h)])
    case Step(t, ans) =>
      if t < |s.jobs| && s.jobs[t].stage != Finished then
        var j := s.jobs[t];
        Database(s, j, ans).(jobs := s.jobs[t := Advanced(s, j, ans)], log := s.log + Logged(s, t, ans),
                             started := if Starts(j, ans) then s.started[j.dir := |s.log|] else s.started)
      else s
  }

  function Exec(s: State, acts: seq<Action>): State {
    if acts == [] then s else Apply(Exec(s, acts[..|acts| - 1]), acts[|acts| - 1])
  }

  /** The rollback target read from the history, if it may be used. */
  function Target(s: State, project: int, failed: string): Option<string> {
    var prev := CurrentHash(s.rows, project);
    if project > 0 && prev.Some? && prev.value != "" && prev.value != failed then prev else None
  }

  function Advanced(s: State, j: Job, ans: Answer): Job {
    var next := match j.stage
      case Syncing(p) => if ans.ok then Building(p, ans.hash) else Finished
      case Building(p, h) => if ans.ok then Checking(h, 0) else Choosing(p, h)
      case Checking(h, depth) => if ans.ok then Probing(Found(s, j.dir, ans.project), h, depth) else Finished
      case Probing(p, h, depth) =>
        if ans.ok then if p > 0 then Promoting(p, h, false) else Finished
        else if depth < 1 then Choosing(p, h) else Finished
      case Choosing(p, failed) =>
          if Target(s, p, failed).Some? then RollbackChosen(Target(s, p, failed).value) else Finished
      // On a hash of less than eight characters the job panics, at once or after the build.
      case RollbackChosen(h) => if ans.ok && |h| < 8 then Finished else RollingBack(Found(s, j.dir, ans.project), h)
      case RollingBack(p, h) => if !ans.ok || |h| < 8 then Finished else if p > 0 then Marking(p, h) else Checking(h, 1)
      case Marking(p, h) => Promoting(p, h, true)
      case Promoting(_, h, rollback) => if rollback then Checking(h, 1) else Finished
      case Finished => Finished;
    Job(j.dir, next, j.steps + 1,
        j.builds + if j.stage.Building? || j.stage.RollingBack? then 1 else 0,
        j.rollbacks + if j.stage.Choosing? && next.RollbackChosen? then 1 else 0)
  }

  /** The database after the step. */
  function Database(s: State, j: Job, ans: Answer): State {
    match j.stage
    case Syncing(p) => if ans.ok then Recording(s, p, ans.hash, Webhook) else s
    case Marking(p, h) => s.(rows := WithRolledBack(s.rows, p, h))
    case Promoting(p, h, _) => s.(rows := WithCurrent(s.rows, p, h))
    case _ => s
  }

  /** The step ends a build that has succeeded. */
  predicate Builds(j: Job, ans: Answer) {
    ans.ok && (j.stage.Building? || (j.stage.RollingBack? && |j.stage.hash| >= 8))
  }

  /** And has started the application. */
  predicate Starts(j: Job, ans: Answer) {
    Builds(j, ans) && ans.runs
  }

  function LastStart(s: State, dir: string): Option<nat> {
    if dir in s.started then Some(s.started[dir]) else None
  }

  function Logged(s: State, t: nat, ans: Answer): seq<Event>
    requires t < |s.jobs|
  {
    var j := s.jobs[t];
    match j.stage
    case Building(_, h) => if Builds(j, ans) then [Built(j.dir, t, h, ans.runs)] else []
    case RollingBack(_, h) => if Builds(j, ans) then [Built(j.dir, t, h, ans.runs)] else []
    case Probing(_, h, _) => if ans.ok then [Passed(j.dir, h, t, LastStart(s, j.dir))] else []
    case Choosing(p, failed) =>
      if Target(s, p, failed).Some? then [AutoRollback(j.dir, failed, Target(s, p, failed).value)] else []
    case Promoting(_, h, _) => [MarkedCurrent(j.dir, h)]
    case _ => []
  }

  // ---------------------------------------------------------------- Invariants

  /** The history table is in order and only registered projects have rows. */
  ghost predicate TableGood(s: State) {
    && TableOk(s.rows, s.nextId)
    && (forall i | 0 <= i < |s.rows| :: s.rows[i].project in s.users)
    && 0 < s.nextProject && (forall p | p in s.users :: 0 < p < s.nextProject)
  }

  /** Among the first n events the hash passed a health check or was chosen by hand, and for this very
      directory unless a project was edited away from it or to it. */
  ghost predicate Vouched(s: State, n: nat, dir: string, hash: string) {
    exists k :: 0 <= k < n && k < |s.log| && Vouches(s, k, dir, hash)
  }

  ghost predicate Vouches(s: State, k: nat, dir: string, hash: string)
    requires k < |s.log|
  {
    (s.log[k].Passed? || s.log[k].ChosenByHand?) && s.log[k].hash == hash && (dir in s.moved || s.log[k].dir == dir)
  }

  ghost predicate RowsVouched(s: State) {
    forall i | 0 <= i < |s.rows| && s.rows[i].project in s.users && s.rows[i].status == Current ::
      Vouched(s, |s.log|, s.users[s.rows[i].project], s.rows[i].hash)
  }

  /** A project a job found is at the job's directory, or was edited away from there, unless deleted. */
  ghost predicate Belongs(s: State, dir: string, project: int) {
    project in s.users ==> s.users[project] == dir || (s.users[project] in s.moved && dir in s.moved)
  }

  ghost predicate JobGood(s: State, j: Job) {
    && (j.stage.Syncing? || j.stage.Building? || j.stage.Probing? || j.stage.RollingBack?
        || j.stage.Marking? || j.stage.Promoting? ==>
          Belongs(s, j.dir, j.stage.project) && j.stage.project < s.nextProject)
    && (j.stage.Choosing? ==> Belongs(s, j.dir, j.stage.project) && j.stage.project < s.nextProject)
    && (j.stage.RollbackChosen? || j.stage.RollingBack? || j.stage.Marking? || j.stage.Promoting? ==>
          Vouched(s, |s.log|, j.dir, j.stage.hash))
  }

  ghost predicate JobsGood(s: State) {
    forall t | 0 <= t < |s.jobs| :: JobGood(s, s.jobs[t])
  }

  ghost predicate EventGood(s: State, i: nat)
    requires i < |s.log|
  {
    match s.log[i]
    case MarkedCurrent(d, h) => Vouched(s, i, d, h)
    case AutoRollback(d, failed, h) => h != failed && h != "" && Vouched(s, i, d, h)
    case _ => true
  }

  ghost predicate LogGood(s: State) {
    forall i | 0 <= i < |s.log| :: EventGood(s, i)
  }

  ghost predicate Good(s: State) {
    TableGood(s) && RowsVouched(s) && JobsGood(s) && LogGood(s)
  }

  /** What only grows. */
  ghost predicate Later(s: State, t: State) {
    && s.log <= t.log && s.moved <= t.moved && s.nextProject <= t.nextProject
    && (forall p | p in t.users && p < s.nextProject ::
          p in s.users && (t.users[p] == s.users[p] || (t.users[p] in t.moved && s.users[p] in t.moved)))
  }

  lemma VouchedLater(s: State, t: State, n: nat, m: nat, dir: string, hash: string)
    requires Later(s, t) && Vouched(s, n, dir, hash) && n <= m
    ensures Vouched(t, m, dir, hash)
  {
    var k :| 0 <= k < n && k < |s.log| && Vouches(s, k, dir, hash);
    assert t.log[k] == s.log[k];
    assert Vouches(t, k, dir, hash);
  }

  lemma JobLater(s: State, t: State, j: Job)
    requires Later(s, t) && JobGood(s, j)
    ensures JobGood(t, j)
  {
    if j.stage.RollbackChosen? || j.stage.RollingBack? || j.stage.Marking? || j.stage.Promoting? {
      VouchedLater(s, t, |s.log|, |t.log|, j.dir, j.stage.hash);
    }
  }

  lemma EventLater(s: State, t: State, i: nat)
    requires Later(s, t) && i < |s.log| && EventGood(s, i)
    ensures EventGood(t, i)
  {
    assert t.log[i] == s.log[i];
    if s.log[i].MarkedCurrent? || s.log[i].AutoRollback? {
      VouchedLater(s, t, i, i, s.log[i].dir, s.log[i].hash);
    }
  }

  lemma {:induction false} WithoutHas(rows: seq<Row>, project: int)
    ensures forall r :: r in Without(rows, project) <==> r in rows && r.project != project
  {
    if rows != [] {
      var front, last := rows[..|rows| - 1], rows[|rows| - 1];
      assert rows == front + [last];
      WithoutHas(front, project);
    }
  }

  lemma RowAdded(rows: seq<Row>, last: Row, nextId: nat)
    requires TableOk(rows, last.id) && last.id < nextId
    requires last.status == Current ==> forall i :: !IsCurrent(rows, last.project, i)
    ensures TableOk(rows + [last], nextId)
  {
    forall p ensures AtMostOneCurrent(rows + [last], p) {
      assert AtMostOneCurrent(rows, p);
      assert forall i | IsCurrent(rows + [last], p, i) && i < |rows| :: IsCurrent(rows, p, i);
    }
  }

  lemma FrontOk(rows: seq<Row>, nextId: nat)
    requires TableOk(rows, nextId) && rows != []
    ensures var front, last := rows[..|rows| - 1], rows[|rows| - 1];
            && TableOk(front, last.id)
            && forall r | r in front && last.status == Current && r.project == last.project :: r.status != Current
  {
    var front, last := rows[..|rows| - 1], rows[|rows| - 1];
    FewerCurrent(rows, front);
    forall r | r in front && last.status == Current && r.project == last.project ensures r.status != Current {
      var k :| 0 <= k < |front| && front[k] == r;
      assert AtMostOneCurrent(rows, last.project) && rows[k] == r;
      assert IsCurrent(rows, last.project, |rows| - 1) && (r.status == Current ==> IsCurrent(rows, last.project, k));
    }
  }

  lemma {:induction false} WithoutKeeps(rows: seq<Row>, nextId: nat, project: int)
    requires TableOk(rows, nextId)
    ensures TableOk(Without(rows, project), nextId)
  {
    if rows != [] {
      var front, last := rows[..|rows| - 1], rows[|rows| - 1];
      FrontOk(rows, nextId);
      WithoutKeeps(front, last.id, project);
      WithoutHas(front, project);
      if last.project != project {
        RowAdded(Without(front, project), last, nextId);
      }
    }
  }

  // ---------------------------------------------------------------- Every step keeps the invariant

  lemma TableKept(s: State, a: Action)
    requires TableGood(s)
    ensures TableGood(Apply(s, a))
  {
    match a
    case DeleteProject(p) => WithoutKeeps(s.rows, s.nextId, p); WithoutHas(s.rows, p);
    case RecordPinned(p, h) => RecordKeeps(s, p, h);
    case Step(t, ans) => if t < |s.jobs| { DatabaseKept(s, s.jobs[t], ans); }
    case _ =>
  }

  lemma DatabaseKept(s: State, j: Job, ans: Answer)
    requires TableGood(s)
    ensures TableGood(Database(s, j, ans))
  {
    match j.stage
    case Syncing(p) => RecordKeeps(s, p, ans.hash);
    case Marking(p, h) => MarkKeeps(s.rows, s.nextId, p, h);
    case Promoting(p, h, _) => SetKeeps(s.rows, s.nextId, p, h);
    case _ =>
  }

  lemma RecordKeeps(s: State, project: int, hash: string)
    requires TableGood(s)
    ensures TableGood(Recording(s, project, hash, Webhook))
  {
    AppendKeeps(s.rows, s.nextId, Row(s.nextId, project, hash, "", Webhook, Intermediate));
  }

  lemma OnlyLater(s: State, a: Action)
    ensures Later(s, Apply(s, a))
  {
  }

  /** A row that is current after an action was current before, or this is the promotion of its commit. */
  lemma NewCurrent(s: State, a: Action, i: int)
    requires TableGood(s) && 0 <= i < |Apply(s, a).rows| && Apply(s, a).rows[i].status == Current
    ensures var r := Apply(s, a).rows[i];
            r in s.rows
            || (a.Step? && a.job < |s.jobs| && s.jobs[a.job].stage.Promoting?
                && s.jobs[a.job].stage.project == r.project && s.jobs[a.job].stage.hash == r.hash)
  {
    match a
    case DeleteProject(p) => WithoutHas(s.rows, p); assert Apply(s, a).rows[i] in Without(s.rows, p);
    case Step(t, ans) =>
      if t < |s.jobs| && s.jobs[t].stage.Promoting? {
        WithCurrentExactly(s.rows, s.jobs[t].stage.project, s.jobs[t].stage.hash);
      }
    case _ =>
  }

  lemma RowsKept(s: State, a: Action)
    requires Good(s)
    ensures RowsVouched(Apply(s, a))
  {
    var t := Apply(s, a);
    OnlyLater(s, a);
    TableKept(s, a);
    forall i | 0 <= i < |t.rows| && t.rows[i].project in t.users && t.rows[i].status == Current
      ensures Vouched(t, |t.log|, t.users[t.rows[i].project], t.rows[i].hash)
    {
      var r := t.rows[i];
      NewCurrent(s, a, i);
      if r in s.rows {
        var k :| 0 <= k < |s.rows| && s.rows[k] == r;
        assert r.project in s.users;
        VouchedLaterAt(s, t, s.users[r.project], t.users[r.project], r.hash);
      } else {
        var j := s.jobs[a.job];
        assert JobGood(s, j);
        VouchedLaterAt(s, t, j.dir, t.users[r.project], r.hash);
      }
    }
  }

  lemma VouchedLaterAt(s: State, t: State, dir: string, dir': string, hash: string)
    requires Later(s, t) && Vouched(s, |s.log|, dir, hash) && (dir' !in t.moved ==> dir' == dir)
    ensures Vouched(t, |t.log|, dir', hash)
  {
    var k :| 0 <= k < |s.log| && Vouches(s, k, dir, hash);
    assert t.log[k] == s.log[k];
    assert Vouches(t, k, dir', hash);
  }

  lemma JobsKept(s: State, a: Action)
    requires Good(s)
    ensures JobsGood(Apply(s, a))
  {
    var t := Apply(s, a);
    OnlyLater(s, a);
    forall i | 0 <= i < |t.jobs| ensures JobGood(t, t.jobs[i]) {
      if i < |s.jobs| && t.jobs[i] == s.jobs[i] {
        assert JobGood(s, s.jobs[i]);
        JobLater(s, t, s.jobs[i]);
      } else if i < |s.jobs| {
        AdvancedGood(s, a);
      } else if a.RollBackByHand? {
        assert Vouches(t, |s.log|, a.dir, a.hash);
      }
    }
  }

  lemma AdvancedGood(s: State, a: Action)
    requires Good(s) && a.Step? && a.job < |s.jobs| && s.jobs[a.job].stage != Finished
    ensures JobGood(Apply(s, a), Apply(s, a).jobs[a.job])
  {
    var t := Apply(s, a);
    var j := s.jobs[a.job];
    assert JobGood(s, j);
    OnlyLater(s, a);
    JobLater(s, t, j);
    if j.stage.Probing? && a.answer.ok { assert Vouches(t, |s.log|, j.dir, j.stage.hash); }
    if j.stage.Choosing? && Target(s, j.stage.project, j.stage.failed).Some? {
      TargetVouched(s, j);
      VouchedLater(s, t, |s.log|, |t.log|, j.dir, Target(s, j.stage.project, j.stage.failed).value);
    }
  }

  lemma TargetVouched(s: State, j: Job)
    requires Good(s) && JobGood(s, j) && j.stage.Choosing? && Target(s, j.stage.project, j.stage.failed).Some?
    ensures Vouched(s, |s.log|, j.dir, Target(s, j.stage.project, j.stage.failed).value)
  {
    var p, h := j.stage.project, Target(s, j.stage.project, j.stage.failed).value;
    CurrentHashNone(s.rows, p);
    var i :| IsCurrent(s.rows, p, i) && s.rows[i].hash == h;
    assert s.rows[i].project in s.users;
    VouchedLaterAt(s, s, s.users[p], j.dir, h);
  }

  lemma LogKept(s: State, a: Action)
    requires Good(s)
    ensures LogGood(Apply(s, a))
  {
    var t := Apply(s, a);
    OnlyLater(s, a);
    forall i | 0 <= i < |t.log| ensures EventGood(t, i) {
      if i < |s.log| {
        EventLater(s, t, i);
      } else if a.Step? {
        assert i == |s.log|;
        var j := s.jobs[a.job];
        assert JobGood(s, j);
        if j.stage.Choosing? {
          TargetVouched(s, j);
          VouchedLater(s, t, i, i, j.dir, t.log[i].hash);
        } else if j.stage.Promoting? {
          VouchedLater(s, t, i, i, j.dir, j.stage.hash);
        }
      }
    }
  }

  lemma {:induction false} AlwaysGood(acts: seq<Action>)
    ensures Good(Exec(Initial, acts))
  {
    if acts != [] {
      var before := Exec(Initial, acts[..|acts| - 1]);
      AlwaysGood(acts[..|acts| - 1]);
      TableKept(before, acts[|acts| - 1]);
      RowsKept(before, acts[|acts| - 1]);
      JobsKept(before, acts[|acts| - 1]);
      LogKept(before, acts[|acts| - 1]);
    }
  }

  // ---------------------------------------------------------------- Over every run

  /** In every reachable state each project has at most one current row. */
  lemma OneCurrentEach(acts: seq<Action>, project: int)
    ensures AtMostOneCurrent(Exec(Initial, acts).rows, project)
  {
    AlwaysGood(acts);
  }

  /** Every commit ever marked current had passed a health check or been chosen by hand before, and what is
      current in the table is such a commit. */
  lemma MarkedWasVouched(acts: seq<Action>)
    ensures var s := Exec(Initial, acts);
            && (forall i | 0 <= i < |s.log| && s.log[i].MarkedCurrent? ::
                  exists k ::
                      0 <= k < i && (s.log[k].Passed? || s.log[k].ChosenByHand?) && s.log[k].hash == s.log[i].hash
                              && (s.log[i].dir in s.moved || s.log[k].dir == s.log[i].dir))
            && (forall i | 0 <= i < |s.rows| && s.rows[i].status == Current ::
                  s.rows[i].project in s.users
                  && exists k :: 0 <= k < |s.log| && (s.log[k].Passed? || s.log[k].ChosenByHand?)
                       && s.log[k].hash == s.rows[i].hash
                                 && (s.users[s.rows[i].project] in s.moved
                                       || s.log[k].dir == s.users[s.rows[i].project]))
  {
    AlwaysGood(acts);
    var s := Exec(Initial, acts);
    forall i | 0 <= i < |s.log| && s.log[i].MarkedCurrent?
      ensures exists k :: 0 <= k < i && (s.log[k].Passed? || s.log[k].ChosenByHand?) && s.log[k].hash == s.log[i].hash
                          && (s.log[i].dir in s.moved || s.log[k].dir == s.log[i].dir)
    {
      assert EventGood(s, i);
      var k :| 0 <= k < i && k < |s.log| && Vouches(s, k, s.log[i].dir, s.log[i].hash);
    }
    forall i | 0 <= i < |s.rows| && s.rows[i].status == Current
      ensures s.rows[i].project in s.users
      ensures exists k ::
              0 <= k < |s.log| && (s.log[k].Passed? || s.log[k].ChosenByHand?) && s.log[k].hash == s.rows[i].hash
                          && (s.users[s.rows[i].project] in s.moved || s.log[k].dir == s.users[s.rows[i].project])
    {
      var k :| 0 <= k < |s.log| && Vouches(s, k, s.users[s.rows[i].project], s.rows[i].hash);
    }
  }

  /** An automatic rollback never goes to the commit that failed, to no commit, or to an untried one. */
  lemma AutoRollbackTarget(acts: seq<Action>, i: nat)
    requires i < |Exec(Initial, acts).log| && Exec(Initial, acts).log[i].AutoRollback?
    ensures var s := Exec(Initial, acts);
            var e := s.log[i];
            && e.hash != e.failed && e.hash != ""
            && exists k :: 0 <= k < i && (s.log[k].Passed? || s.log[k].ChosenByHand?) && s.log[k].hash == e.hash
                           && (e.dir in s.moved || s.log[k].dir == e.dir)
  {
    AlwaysGood(acts);
    var s := Exec(Initial, acts);
    assert EventGood(s, i);
    var k :| 0 <= k < i && k < |s.log| && Vouches(s, k, s.log[i].dir, s.log[i].hash);
  }

  /** The rows of a project, statuses apart. */
  function HistoryOf(rows: seq<Row>, project: int): seq<Row> {
    if rows == [] then []
    else
      var front, last := HistoryOf(rows[..|rows| - 1], project), rows[|rows| - 1];
      if last.project == project then front + [last.(status := Intermediate)] else front
  }

  lemma {:induction false} HistoryIgnoresStatus(a: seq<Row>, b: seq<Row>, project: int)
    requires SameButStatus(a, b)
    ensures HistoryOf(a, project) == HistoryOf(b, project)
  {
    if a != [] {
      HistoryIgnoresStatus(a[..|a| - 1], b[..|b| - 1], project);
    }
  }

  lemma {:induction false} HistoryWithout(rows: seq<Row>, other: int, project: int)
    requires other != project
    ensures HistoryOf(Without(rows, other), project) == HistoryOf(rows, project)
  {
    if rows != [] {
      var front, last := rows[..|rows| - 1], rows[|rows| - 1];
      HistoryWithout(front, other, project);
      HistoryAppended(Without(front, other), last, project);
    }
  }

  lemma HistoryAppended(rows: seq<Row>, r: Row, project: int)
    ensures HistoryOf(rows + [r], project) ==
              HistoryOf(rows, project) + if r.project == project then [r.(status := Intermediate)] else []
  {
    assert (rows + [r])[..|rows|] == rows;
  }

  lemma HistoryGrows(s: State, a: Action, project: int)
    requires TableGood(s) && project in s.users && project in Apply(s, a).users
    ensures HistoryOf(s.rows, project) <= HistoryOf(Apply(s, a).rows, project)
  {
    match a
    case DeleteProject(p) => HistoryWithout(s.rows, p, project);
    case RecordPinned(p, h) => HistoryAppended(s.rows, Row(s.nextId, p, h, "", Webhook, Intermediate), project);
    case Step(t, ans) =>
      if t < |s.jobs| {
        match s.jobs[t].stage
        case Syncing(p) => HistoryAppended(s.rows, Row(s.nextId, p, ans.hash, "", Webhook, Intermediate), project);
        case Marking(p, h) => HistoryIgnoresStatus(s.rows, WithRolledBack(s.rows, p, h), project);
        case Promoting(p, h, _) =>
          SetKeeps(s.rows, s.nextId, p, h);
          HistoryIgnoresStatus(s.rows, WithCurrent(s.rows, p, h), project);
        case _ =>
      }
    case _ =>
  }

  /** As long as a project is registered its rows stay, in order, with their ids, commits and triggers: a
      run only adds rows after them and changes statuses. */
  lemma HistoryIsKept(past: seq<Action>, future: seq<Action>, project: int)
    requires project in Exec(Initial, past).users && project in Exec(Exec(Initial, past), future).users
    ensures HistoryOf(Exec(Initial, past).rows, project) <= HistoryOf(Exec(Exec(Initial, past), future).rows, project)
  {
    AlwaysGood(past);
    HistoryIsKeptFrom(Exec(Initial, past), future, project);
  }

  lemma HistoryStep(s: State, a: Action, project: int)
    requires TableGood(s) && project < s.nextProject
    ensures TableGood(Apply(s, a)) && project < Apply(s, a).nextProject
    ensures project in Apply(s, a).users ==>
            project in s.users && HistoryOf(s.rows, project) <= HistoryOf(Apply(s, a).rows, project)
  {
    TableKept(s, a);
    if project in Apply(s, a).users {
      assert project in s.users;
      HistoryGrows(s, a, project);
    }
  }

  lemma {:induction false} HistoryIsKeptFrom(s: State, acts: seq<Action>, project: int)
    requires TableGood(s) && project in s.users
    ensures TableGood(Exec(s, acts)) && project < Exec(s, acts).nextProject
    ensures project in Exec(s, acts).users ==> HistoryOf(s.rows, project) <= HistoryOf(Exec(s, acts).rows, project)
  {
    if acts != [] {
      var front := acts[..|acts| - 1];
      HistoryIsKeptFrom(s, front, project);
      HistoryStep(Exec(s, front), acts[|acts| - 1], project);
    }
  }

  /** The log leaves out no promotion and no automatic rollback. */
  lemma LogIsComplete(past: seq<Action>, a: Action)
    ensures var s, t := Exec(Initial, past), Apply(Exec(Initial, past), a);
            && (forall i | 0 <= i < |t.rows| && t.rows[i].status == Current && t.rows[i] !in s.rows ::
                  exists d :: t.log == s.log + [MarkedCurrent(d, t.rows[i].hash)])
            && (forall j | 0 <= j < |s.jobs| && s.jobs[j].stage.Choosing? && t.jobs[j].stage.RollbackChosen? ::
                  t.log == s.log + [AutoRollback(s.jobs[j].dir, s.jobs[j].stage.failed, t.jobs[j].stage.hash)])
  {
    var s, t := Exec(Initial, past), Apply(Exec(Initial, past), a);
    AlwaysGood(past);
    forall i | 0 <= i < |t.rows| && t.rows[i].status == Current && t.rows[i] !in s.rows
      ensures exists d :: t.log == s.log + [MarkedCurrent(d, t.rows[i].hash)]
    {
      PromotionIsLogged(s, a, i);
    }
    forall j | 0 <= j < |s.jobs| && s.jobs[j].stage.Choosing? && t.jobs[j].stage.RollbackChosen?
      ensures t.log == s.log + [AutoRollback(s.jobs[j].dir, s.jobs[j].stage.failed, t.jobs[j].stage.hash)]
    {
      ChoiceIsLogged(s, a, j);
    }
  }

  lemma PromotionIsLogged(s: State, a: Action, i: nat)
    requires TableGood(s) && i < |Apply(s, a).rows|
    requires Apply(s, a).rows[i].status == Current && Apply(s, a).rows[i] !in s.rows
    ensures exists d :: Apply(s, a).log == s.log + [MarkedCurrent(d, Apply(s, a).rows[i].hash)]
  {
    NewCurrent(s, a, i);
    assert Apply(s, a).log == s.log + [MarkedCurrent(s.jobs[a.job].dir, Apply(s, a).rows[i].hash)];
  }

  lemma ChoiceIsLogged(s: State, a: Action, j: nat)
    requires j < |s.jobs| && j < |Apply(s, a).jobs|
    requires s.jobs[j].stage.Choosing? && Apply(s, a).jobs[j].stage.RollbackChosen?
    ensures Apply(s, a).log ==
              s.log + [AutoRollback(s.jobs[j].dir, s.jobs[j].stage.failed, Apply(s, a).jobs[j].stage.hash)]
  {
  }

  /** Projects come with a fresh id and no history, move without touching it, and take all their rows with them
      when they go; a commit recorded by hand is added to the end of a registered project's. */
  lemma ProjectSteps(past: seq<Action>, project: int, dir: string, hash: string)
    ensures var s := Exec(Initial, past);
            && var t := Apply(s, CreateProject(dir));
               && s.nextProject !in s.users && t.users == s.users[s.nextProject := dir] && t.rows == s.rows
               && HistoryOf(t.rows, s.nextProject) == []
    ensures var s := Exec(Initial, past);
            var t := Apply(s, MoveProject(project, dir));
            t.rows == s.rows && t.users == if project in s.users then s.users[project := dir] else s.users
    ensures var s := Exec(Initial, past);
            var t := Apply(s, DeleteProject(project));
            && t.users == s.users - {project} && HistoryOf(t.rows, project) == []
            && (forall r :: r in t.rows <==> r in s.rows && r.project != project)
            && (forall p | p != project :: HistoryOf(t.rows, p) == HistoryOf(s.rows, p))
    ensures var s := Exec(Initial, past);
            var t := Apply(s, RecordPinned(project, hash));
            && t.users == s.users && |t.rows| == |s.rows| + (if project in s.users then 1 else 0) && s.rows <= t.rows
            && (project in s.users ==> Of(t.rows[|s.rows|], project, hash) && t.rows[|s.rows|].status == Intermediate)
  {
    var s := Exec(Initial, past);
    AlwaysGood(past);
    NoRowsNoHistory(s.rows, s.nextProject);
    WithoutHas(s.rows, project);
    NoRowsNoHistory(Without(s.rows, project), project);
    forall p | p != project { HistoryWithout(s.rows, project, p); }
  }

  lemma {:induction false} NoRowsNoHistory(rows: seq<Row>, project: int)
    requires forall r | r in rows :: r.project != project
    ensures HistoryOf(rows, project) == []
  {
    if rows != [] { NoRowsNoHistory(rows[..|rows| - 1], project); }
  }

  // ---------------------------------------------------------------- Every job ends

  /** The most steps, builds and automatic rollbacks a job at this stage can still make. */
  function StepsLeft(stage: Stage): nat {
    match stage
    case Syncing(_) => 12
    case Building(_, _) => 11
    case Checking(_, depth) => if depth < 1 then 10 else 3
    case Probing(_, _, depth) => if depth < 1 then 9 else 2
    case Choosing(_, _) => 8
    case RollbackChosen(_) => 7
    case RollingBack(_, _) => 6
    case Marking(_, _) => 5
    case Promoting(_, _, rollback) => if rollback then 4 else 1
    case Finished => 0
  }

  function RollbacksLeft(stage: Stage): nat {
    if StepsLeft(stage) >= 8 then 1 else 0
  }

  function BuildsLeft(stage: Stage): nat {
    if StepsLeft(stage) >= 11 then 2 else if StepsLeft(stage) >= 6 then 1 else 0
  }

  ghost predicate Bounded(j: Job) {
    && j.steps + StepsLeft(j.stage) <= 12
    && j.builds + BuildsLeft(j.stage) <= 2
    && j.rollbacks + RollbacksLeft(j.stage) <= 1
  }

  lemma AdvancedBounded(s: State, j: Job, ans: Answer)
    requires Bounded(j) && j.stage != Finished
    ensures Bounded(Advanced(s, j, ans))
  {
  }

  lemma StepBounded(s: State, a: Action, t: nat)
    requires t < |s.jobs| ==> Bounded(s.jobs[t])
    requires t < |Apply(s, a).jobs|
    ensures Bounded(Apply(s, a).jobs[t])
  {
    if t < |s.jobs| {
      if a.Step? && a.job == t && s.jobs[t].stage != Finished {
        AdvancedBounded(s, s.jobs[t], a.answer);
      } else {
        assert Apply(s, a).jobs[t] == s.jobs[t];
      }
    }
  }

  /** However jobs interleave, each makes at most two builds and one automatic rollback, and is finished
      after at most twelve steps. */
  lemma JobsEnd(acts: seq<Action>, t: nat)
    requires t < |Exec(Initial, acts).jobs|
    ensures var j := Exec(Initial, acts).jobs[t];
            j.builds <= 2 && j.rollbacks <= 1 && j.steps <= 12 && (j.steps == 12 ==> j.stage == Finished)
  {
    AlwaysBounded(acts, t);
  }

  lemma {:induction false} AlwaysBounded(acts: seq<Action>, t: nat)
    requires t < |Exec(Initial, acts).jobs|
    ensures Bounded(Exec(Initial, acts).jobs[t])
  {
    if acts != [] {
      var front := acts[..|acts| - 1];
      if t < |Exec(Initial, front).jobs| {
        AlwaysBounded(front, t);
      }
      StepBounded(Exec(Initial, front), acts[|acts| - 1], t);
    }
  }
}
