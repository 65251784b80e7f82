/** gosrc/database/registry.go: the commit history and the deploy status of the registered projects.
    Each database call is one atomic update of the table. */
module History {
  import opened Wrappers

  datatype Status = Intermediate | Current | RolledBack

  datatype Trigger = Webhook | Manual

  datatype DeployStatus = Idle | Deploying | FailedDeploy | Running | ExternallyManaged | Installed

  /** A row of commit_history. */
  datatype Row = Row(id: nat, project: int, hash: string, msg: string, trigger: Trigger, status: Status)

  // ---------------------------------------------------------------- The updates

  predicate Of(r: Row, project: int, hash: string) {
    r.project == project && r.hash == hash
  }

  /** UPDATE ... SET status = 'intermediate' WHERE project_id = ? AND status = 'current' */
  function Demoted(rows: seq<Row>, project: int): (out: seq<Row>)
    ensures |out| == |rows|
  {
    seq(|rows|, i requires 0 <= i < |rows| =>
      if rows[i].project == project && rows[i].status == Current then rows[i].(status := Intermediate) else rows[i])
  }

  /** SELECT id ... [AND status = 'intermediate'] ORDER BY id DESC LIMIT 1, as a position; -1 for no row. */
  function Newest(rows: seq<Row>, project: int, hash: string, onlyIntermediate: bool): (k: int)
    ensures -1 <= k < |rows|
    ensures k >= 0 ==> Of(rows[k], project, hash) && (onlyIntermediate ==> rows[k].status == Intermediate)
    ensures forall i | k < i < |rows| ::
            !(Of(rows[i], project, hash) && (onlyIntermediate ==> rows[i].status == Intermediate))
  {
    if rows == [] then -1
    else
      var n := |rows| - 1;
      if Of(rows[n], project, hash) && (onlyIntermediate ==> rows[n].status == Intermediate) then n
      else
        var k := Newest(rows[..n], project, hash, onlyIntermediate);
        assert forall i | k < i < n :: rows[..n][i] == rows[i];
        k
  }

  /** SetCurrentCommit. */
  function WithCurrent(rows: seq<Row>, project: int, hash: string): (out: seq<Row>)
    ensures |out| == |rows|
  {
    var reset := Demoted(rows, project);
    var i := Newest(reset, project, hash, true);
    var k := if i >= 0 then i else Newest(reset, project, hash, false);
    if k >= 0 then reset[k := reset[k].(status := Current)] else reset
  }

  /** MarkCommitRolledBack. */
  function WithRolledBack(rows: seq<Row>, project: int, hash: string): (out: seq<Row>)
    ensures |out| == |rows|
  {
    seq(|rows|, i requires 0 <= i < |rows| =>
        if Of(rows[i], project, hash) then rows[i].(status := RolledBack) else rows[i])
  }

  /** GetPreviousCurrentCommit. */
  function CurrentHash(rows: seq<Row>, project: int): Option<string> {
    LastCurrent(rows, project, |rows|)
  }

  /** The newest current row's hash, among the first n rows. */
  function LastCurrent(rows: seq<Row>, project: int, n: nat): Option<string>
    requires n <= |rows|
  {
    if n == 0 then None
    else if rows[n - 1].project == project && rows[n - 1].status == Current then Some(rows[n - 1].hash)
    else LastCurrent(rows, project, n - 1)
  }

  // ---------------------------------------------------------------- What they mean

  ghost predicate IsCurrent(rows: seq<Row>, project: int, i: int) {
    0 <= i < |rows| && rows[i].project == project && rows[i].status == Current
  }

  ghost predicate AtMostOneCurrent(rows: seq<Row>, project: int) {
    forall i, j | IsCurrent(rows, project, i) && IsCurrent(rows, project, j) :: i == j
  }

  ghost predicate Recorded(rows: seq<Row>, project: int, hash: string) {
    exists i :: 0 <= i < |rows| && Of(rows[i], project, hash)
  }

  /** The newest row of the hash. */
  ghost predicate IsNewest(rows: seq<Row>, project: int, hash: string, k: int) {
    && 0 <= k < |rows| && Of(rows[k], project, hash)
    && forall i | k < i < |rows| :: !Of(rows[i], project, hash)
  }

  /** The row SetCurrentCommit promotes: the newest of the hash that is not rolled back, and only if all
      its rows are rolled back the newest of them. */
  ghost predicate IsPromoted(rows: seq<Row>, project: int, hash: string, k: int) {
    && 0 <= k < |rows| && Of(rows[k], project, hash)
    && (forall i | k < i < |rows| && Of(rows[i], project, hash) ::
          rows[k].status != RolledBack && rows[i].status == RolledBack)
    && (rows[k].status == RolledBack ==>
          forall i | 0 <= i < |rows| && Of(rows[i], project, hash) :: rows[i].status == RolledBack)
  }

  /** SetCurrentCommit, row by row: the promoted row becomes current, another current row of the project
      becomes intermediate, and nothing else changes. */
  lemma WithCurrentExactly(rows: seq<Row>, project: int, hash: string)
    ensures forall i | 0 <= i < |rows| ::
              WithCurrent(rows, project, hash)[i] == rows[i].(status :=
                if IsPromoted(rows, project, hash, i) then Current
                else if rows[i].project == project && rows[i].status == Current then Intermediate
                else rows[i].status)
    ensures Recorded(rows, project, hash) <==> exists k :: IsPromoted(rows, project, hash, k)
  {
    var reset := Demoted(rows, project);
    var i0 := Newest(reset, project, hash, true);
    var k := if i0 >= 0 then i0 else Newest(reset, project, hash, false);
    forall i | 0 <= i < |rows| ensures Of(reset[i], project, hash) == Of(rows[i], project, hash) { }
    if k >= 0 { PromotedIs(rows, project, hash, i0, k); }
  }

  lemma PromotedIs(rows: seq<Row>, project: int, hash: string, i0: int, k: int)
    requires i0 == Newest(Demoted(rows, project), project, hash, true)
    requires k == if i0 >= 0 then i0 else Newest(Demoted(rows, project), project, hash, false)
    requires k >= 0
    ensures forall i :: IsPromoted(rows, project, hash, i) <==> i == k
  {
    var reset := Demoted(rows, project);
    assert forall i | 0 <= i < |rows| ::
        Of(reset[i], project, hash) == Of(rows[i], project, hash)
        && (Of(rows[i], project, hash) ==> (reset[i].status == Intermediate <==> rows[i].status != RolledBack));
    assert IsPromoted(rows, project, hash, k);
    PromotedIsUnique(rows, project, hash);
  }

  lemma PromotedIsUnique(rows: seq<Row>, project: int, hash: string)
    ensures forall i, j | IsPromoted(rows, project, hash, i) && IsPromoted(rows, project, hash, j) :: i == j
  {
  }

  lemma WithCurrentAtMostOne(rows: seq<Row>, project: int, hash: string)
    ensures AtMostOneCurrent(WithCurrent(rows, project, hash), project)
    ensures forall p | p != project && AtMostOneCurrent(rows, p) ::
            AtMostOneCurrent(WithCurrent(rows, project, hash), p)
  {
    WithCurrentExactly(rows, project, hash);
    PromotedIsUnique(rows, project, hash);
    var out := WithCurrent(rows, project, hash);
    forall p, i | p != project ensures IsCurrent(out, p, i) <==> IsCurrent(rows, p, i) { }
  }

  /** Setting the same commit current again leaves every status as it is. */
  lemma WithCurrentIdempotent(rows: seq<Row>, project: int, hash: string)
    ensures WithCurrent(WithCurrent(rows, project, hash), project, hash) == WithCurrent(rows, project, hash)
  {
  }

  lemma {:induction false} LastCurrentIs(rows: seq<Row>, project: int, n: nat)
    requires n <= |rows|
    ensures LastCurrent(rows, project, n).None? ==> forall i | 0 <= i < n :: !IsCurrent(rows, project, i)
    ensures LastCurrent(rows, project, n).Some? ==>
              exists i ::
                  0 <= i < n && IsCurrent(rows, project, i) && rows[i].hash == LastCurrent(rows, project, n).value
  {
    if n > 0 {
      LastCurrentIs(rows, project, n - 1);
      assert IsCurrent(rows, project, n - 1) || LastCurrent(rows, project, n) == LastCurrent(rows, project, n - 1);
    }
  }

  lemma CurrentHashIs(rows: seq<Row>, project: int, k: int)
    requires IsCurrent(rows, project, k) && AtMostOneCurrent(rows, project)
    ensures CurrentHash(rows, project) == Some(rows[k].hash)
  {
    LastCurrentIs(rows, project, |rows|);
  }

  lemma CurrentHashNone(rows: seq<Row>, project: int)
    ensures CurrentHash(rows, project) == None <==> forall i :: !IsCurrent(rows, project, i)
    ensures CurrentHash(rows, project).Some? ==>
              exists i :: IsCurrent(rows, project, i) && rows[i].hash == CurrentHash(rows, project).value
  {
    LastCurrentIs(rows, project, |rows|);
  }

  /** After SetCurrentCommit the recorded hash is the current one; without a row for it there is none. */
  lemma CurrentAfterSet(rows: seq<Row>, project: int, hash: string)
    ensures CurrentHash(WithCurrent(rows, project, hash), project) ==
              if Recorded(rows, project, hash) then Some(hash) else None
    ensures forall p | p != project :: CurrentHash(WithCurrent(rows, project, hash), p) == CurrentHash(rows, p)
  {
    var out := WithCurrent(rows, project, hash);
    WithCurrentExactly(rows, project, hash);
    WithCurrentAtMostOne(rows, project, hash);
    if Recorded(rows, project, hash) {
      var k :| IsPromoted(rows, project, hash, k);
      CurrentHashIs(out, project, k);
    } else {
      forall i ensures !IsCurrent(out, project, i) {
        if 0 <= i < |rows| { assert !IsPromoted(rows, project, hash, i); }
      }
      CurrentHashNone(out, project);
    }
    forall p | p != project ensures CurrentHash(out, p) == CurrentHash(rows, p) {
      SameCurrentRows(rows, out, p, |rows|);
    }
  }

  lemma {:induction false} SameCurrentRows(a: seq<Row>, b: seq<Row>, project: int, n: nat)
    requires n <= |a| && n <= |b|
    requires forall i | 0 <= i < n :: a[i].project == b[i].project && (a[i].project == project ==> a[i] == b[i])
    ensures LastCurrent(a, project, n) == LastCurrent(b, project, n)
  {
    if n > 0 { SameCurrentRows(a, b, project, n - 1); }
  }

  /** The rows after a rollback to the hash: its newest row is current, its other rows are rolled back, the
      project's previous current row of another hash is intermediate, and every other row is as it was. */
  ghost predicate RolledBackTo(rows: seq<Row>, out: seq<Row>, project: int, hash: string) {
    && |out| == |rows|
    && forall i | 0 <= i < |rows| ::
         out[i] == rows[i].(status :=
           if IsNewest(rows, project, hash, i) then Current
           else if Of(rows[i], project, hash) then RolledBack
           else if rows[i].project == project && rows[i].status == Current then Intermediate
           else rows[i].status)
  }

  /** Rolling back on the history, marking and then setting current, is exact. */
  lemma RollbackExactly(rows: seq<Row>, project: int, hash: string)
    ensures var out := WithCurrent(WithRolledBack(rows, project, hash), project, hash);
            && RolledBackTo(rows, out, project, hash) && AtMostOneCurrent(out, project)
            && (Recorded(rows, project, hash) ==>
                  && (exists i :: IsNewest(rows, project, hash, i) && IsCurrent(out, project, i))
                  && CurrentHash(out, project) == Some(hash))
  {
    var marked := WithRolledBack(rows, project, hash);
    assert forall i | 0 <= i < |rows| :: Of(marked[i], project, hash) == Of(rows[i], project, hash);
    WithCurrentExactly(marked, project, hash);
    WithCurrentAtMostOne(marked, project, hash);
    CurrentAfterSet(marked, project, hash);
    forall i ensures IsPromoted(marked, project, hash, i) <==> IsNewest(rows, project, hash, i) { }
    if Recorded(rows, project, hash) {
      var j :| 0 <= j < |rows| && Of(rows[j], project, hash);
      assert Of(marked[j], project, hash);
    }
  }

  /** Marking a commit rolled back leaves the project without a current commit if it was the current one,
      and otherwise with the one it had. */
  lemma MarkExactly(rows: seq<Row>, project: int, hash: string)
    ensures AtMostOneCurrent(rows, project) ==>
              CurrentHash(WithRolledBack(rows, project, hash), project) ==
                if CurrentHash(rows, project) == Some(hash) then None else CurrentHash(rows, project)
    ensures forall p | p != project :: CurrentHash(WithRolledBack(rows, project, hash), p) == CurrentHash(rows, p)
  {
    var out := WithRolledBack(rows, project, hash);
    forall p | p != project ensures CurrentHash(out, p) == CurrentHash(rows, p) {
      SameCurrentRows(rows, out, p, |rows|);
    }
    CurrentHashNone(rows, project);
    CurrentHashNone(out, project);
    assert forall i :: IsCurrent(out, project, i) <==> IsCurrent(rows, project, i) && rows[i].hash != hash;
    if AtMostOneCurrent(rows, project) && CurrentHash(rows, project).Some? {
      var k :| IsCurrent(rows, project, k) && rows[k].hash == CurrentHash(rows, project).value;
      if rows[k].hash != hash { CurrentHashIs(out, project, k); }
    }
  }

  // ---------------------------------------------------------------- The database

  /** Only statuses differ. */
  ghost predicate SameButStatus(a: seq<Row>, b: seq<Row>) {
    |a| == |b| && forall i | 0 <= i < |a| :: b[i] == a[i].(status := b[i].status)
  }

  /** Rows of the project keep even their status. */
  ghost predicate SameForProject(a: seq<Row>, b: seq<Row>, project: int) {
    |a| == |b| && forall i | 0 <= i < |a| && a[i].project == project :: b[i] == a[i]
  }

  /** AUTOINCREMENT: ids start at 1, so 0 can stand for "no such project". */
  type ProjectId = n: int | n > 0 witness 1

  /** UPDATE users SET deploy_status = ? WHERE serviceDir = ? */
  function WithStatus(statuses: map<string, DeployStatus>, projects: map<string, ProjectId>, dir: string,
                      s: DeployStatus)
    : map<string, DeployStatus>
  {
    if dir in projects then statuses[dir := s] else statuses
  }

  /** Only the last status written for a directory counts. */
  lemma LastStatusWins(statuses: map<string, DeployStatus>, projects: map<string, ProjectId>, dir: string)
    ensures forall a, b ::
            WithStatus(WithStatus(statuses, projects, dir, a), projects, dir, b)
            == WithStatus(statuses, projects, dir, b)
  {
  }

  /** The statuses after a run of writes. */
  function StatusesAfter(statuses: map<string, DeployStatus>, projects: map<string, ProjectId>,
                         writes: seq<(string, DeployStatus)>): map<string, DeployStatus>
  {
    if writes == [] then statuses
    else
      var last := writes[|writes| - 1];
      WithStatus(StatusesAfter(statuses, projects, writes[..|writes| - 1]), projects, last.0, last.1)
  }

  /** A directory shows the status last written for it if it is registered, and keeps what it had if it is
      not, or if nothing was written for it. */
  lemma {:induction false} LastWriteShows(statuses: map<string, DeployStatus>, projects: map<string, ProjectId>,
                                          writes: seq<(string, DeployStatus)>, dir: string)
    ensures var after := StatusesAfter(statuses, projects, writes);
            && (forall k | 0 <= k < |writes| && writes[k].0 == dir && dir in projects
                           && (forall j | k < j < |writes| :: writes[j].0 != dir) ::
                                 dir in after && after[dir] == writes[k].1)
            && (dir !in projects || (forall j | 0 <= j < |writes| :: writes[j].0 != dir) ==>
                  (dir in after <==> dir in statuses) && (dir in after ==> after[dir] == statuses[dir]))
  {
    if writes != [] {
      var front := writes[..|writes| - 1];
      LastWriteShows(statuses, projects, front, dir);
      assert forall j | 0 <= j < |front| :: front[j] == writes[j];
    }
  }

  class Registry {
    /** Registered projects by service directory. */
    const projects: map<string, ProjectId>
    var deployStatus: map<string, DeployStatus>
    var rows: seq<Row>
    var nextId: nat

    constructor (projects: map<string, ProjectId>)
      ensures this.projects == projects && deployStatus == map[] && rows == [] && nextId == 1
    {
      this.projects, deployStatus, rows, nextId := projects, map[], [], 1;
    }

    /** GetProjectIDByDir, with the callers' habit of ignoring the error: 0 for an unknown directory. */
    method GetProjectIDByDir(dir: string) returns (id: int)
      ensures id == if dir in projects then projects[dir] else 0
    {
      id := if dir in projects then projects[dir] else 0;
    }

    method SetDeployStatusByDir(dir: string, status: DeployStatus)
      modifies this`deployStatus
      ensures deployStatus == WithStatus(old(deployStatus), projects, dir, status)
      ensures dir in projects ==> dir in deployStatus && deployStatus[dir] == status
      ensures forall d | d != dir || dir !in projects :: (d in deployStatus <==> d in old(deployStatus))
                && (d in deployStatus ==> deployStatus[d] == old(deployStatus)[d])
    {
      if dir in projects {
        deployStatus := deployStatus[dir := status];
      }
    }

    /** The row goes to the end, intermediate and with a fresh id, unless the foreign key refuses it. */
    method AddCommitToHistory(project: int, hash: string, msg: string, trigger: Trigger) returns (id: Option<nat>)
      modifies this`rows, this`nextId
      ensures id.Some? <==> project in projects.Values
      ensures id.None? ==> rows == old(rows) && nextId == old(nextId)
      ensures id.Some? ==> id.value == old(nextId) && nextId == old(nextId) + 1
      ensures id.Some? ==> rows == old(rows) + [Row(id.value, project, hash, msg, trigger, Intermediate)]
    {
      if project !in projects.Values {
        return None;
      }
      rows := rows + [Row(nextId, project, hash, msg, trigger, Intermediate)];
      nextId := nextId + 1;
      return Some(nextId - 1);
    }

    method SetCurrentCommit(project: int, hash: string)
      modifies this`rows
      ensures rows == WithCurrent(old(rows), project, hash)
      ensures |rows| == |old(rows)| && forall i | 0 <= i < |rows| ::
                rows[i] == old(rows)[i].(status :=
                  if IsPromoted(old(rows), project, hash, i) then Current
                  else if old(rows)[i].project == project && old(rows)[i].status == Current then Intermediate
                  else old(rows)[i].status)
    {
      WithCurrentExactly(rows, project, hash);
      var reset := Demoted(rows, project);
      var k := Newest(reset, project, hash, true);
      if k < 0 {
        k := Newest(reset, project, hash, false);
      }
      rows := if k >= 0 then reset[k := reset[k].(status := Current)] else reset;
    }

    method MarkCommitRolledBack(project: int, hash: string)
      modifies this`rows
      ensures rows == WithRolledBack(old(rows), project, hash)
      ensures |rows| == |old(rows)| && forall i | 0 <= i < |rows| ::
                rows[i] == old(rows)[i].(status :=
                  if Of(old(rows)[i], project, hash) then RolledBack else old(rows)[i].status)
      ensures AtMostOneCurrent(old(rows), project) ==>
                CurrentHash(rows, project) ==
                  if CurrentHash(old(rows), project) == Some(hash) then None else CurrentHash(old(rows), project)
    {
      MarkExactly(rows, project, hash);
      rows := WithRolledBack(rows, project, hash);
    }

    method GetPreviousCurrentCommit(project: int) returns (hash: Option<string>)
      ensures hash == CurrentHash(rows, project)
    {
      hash := CurrentHash(rows, project);
    }
  }

  // ---------------------------------------------------------------- What every update keeps

  /** Rows lie in id order, below the next id, and each project has at most one current row. */
  ghost predicate TableOk(rows: seq<Row>, nextId: nat) {
    && (forall i | 0 <= i < |rows| :: rows[i].id < nextId)
    && (forall i, j | 0 <= i < j < |rows| :: rows[i].id < rows[j].id)
    && (forall p :: AtMostOneCurrent(rows, p))
  }

  /** No update that makes no row current can break the one-current-row rule. */
  lemma FewerCurrent(a: seq<Row>, b: seq<Row>)
    requires forall p :: AtMostOneCurrent(a, p)
    requires forall p, i :: IsCurrent(b, p, i) ==> IsCurrent(a, p, i)
    ensures forall p :: AtMostOneCurrent(b, p)
  {
    forall p ensures AtMostOneCurrent(b, p) {
      assert AtMostOneCurrent(a, p);
    }
  }

  lemma AppendKeeps(rows: seq<Row>, nextId: nat, r: Row)
    requires TableOk(rows, nextId) && r.id == nextId && r.status != Current
    ensures TableOk(rows + [r], nextId + 1)
  {
    FewerCurrent(rows, rows + [r]);
  }

  lemma SetKeeps(rows: seq<Row>, nextId: nat, project: int, hash: string)
    requires TableOk(rows, nextId)
    ensures TableOk(WithCurrent(rows, project, hash), nextId) && SameButStatus(rows, WithCurrent(rows, project, hash))
    ensures forall p | p != project :: SameForProject(rows, WithCurrent(rows, project, hash), p)
  {
    WithCurrentExactly(rows, project, hash);
    WithCurrentAtMostOne(rows, project, hash);
  }

  lemma MarkKeeps(rows: seq<Row>, nextId: nat, project: int, hash: string)
    requires TableOk(rows, nextId)
    ensures TableOk(WithRolledBack(rows, project, hash), nextId)
            && SameButStatus(rows, WithRolledBack(rows, project, hash))
    ensures forall p | p != project :: SameForProject(rows, WithRolledBack(rows, project, hash), p)
  {
    FewerCurrent(rows, WithRolledBack(rows, project, hash));
  }
}
