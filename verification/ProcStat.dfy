/** gosrc/actions/executor_linux.go: finding the processes of a group through the stat files in /proc.
    The parser must undo the layout of proc(5), whose second field may hold spaces and parentheses. */
module ProcStat {
  import opened Wrappers
  import opened Text

  /** strings.LastIndex(s, ")"), -1 when there is none. */
  function LastParen(s: string): (i: int)
    ensures -1 <= i < |s|
    ensures i >= 0 ==> s[i] == ')' && ')' !in s[i + 1..]
    ensures i < 0 ==> ')' !in s
  {
    if s == "" then -1
    else if s[|s| - 1] == ')' then |s| - 1
    else
      var i := LastParen(s[..|s| - 1]);
      assert s == s[..|s| - 1] + [s[|s| - 1]];
      assert i >= 0 ==> s[i + 1..] == s[..|s| - 1][i + 1..] + [s[|s| - 1]];
      i
  }

  /** The process group a stat line names, if the line has one. */
  function GroupField(stat: string): Option<string> {
    var idx := LastParen(stat);
    if idx < 0 || idx + 2 >= |stat| then None
    else
      var fields := Fields(stat[idx + 2..]);
      if |fields| < 3 then None else Some(fields[2])
  }

  /** A stat line as the kernel prints it; `later` is everything after the process group. */
  function StatLine(pid: int, comm: string, state: char, ppid: int, pgrp: int, later: string): string {
    (Itoa(pid) + " (" + comm) + ")" + (" " + AfterComm(state, ppid, pgrp, later))
  }

  function AfterComm(state: char, ppid: int, pgrp: int, later: string): string {
    [state] + (" " + (Itoa(ppid) + (" " + (Itoa(pgrp) + later))))
  }

  lemma {:induction false} LastParenOf(before: string, after: string)
    requires ')' !in after
    ensures LastParen(before + ")" + after) == |before|
  {
    var s := before + ")" + after;
    if after == "" {
      assert s[|s| - 1] == ')';
    } else {
      var last := after[|after| - 1];
      assert last in after && s[|s| - 1] == last;
      assert s[..|s| - 1] == before + ")" + after[..|after| - 1];
      LastParenOf(before, after[..|after| - 1]);
    }
  }

  lemma FieldsNext(w: string, rest: string)
    requires Word(w)
    ensures Fields(w + (" " + rest)) == [w] + Fields(rest)
  {
    FieldsSkipBlank(" ", rest);
    FieldsWord(w, " " + rest);
  }

  lemma FieldsAfterComm(state: char, ppid: int, pgrp: int, later: string)
    requires !IsSpace(state) && (later != "" ==> later[0] == ' ')
    ensures Fields(AfterComm(state, ppid, pgrp, later)) == [[state]] + ([Itoa(ppid)] + ([Itoa(pgrp)] + Fields(later)))
  {
    FieldsWord(Itoa(pgrp), later);
    FieldsNext(Itoa(ppid), Itoa(pgrp) + later);
    FieldsNext([state], Itoa(ppid) + (" " + (Itoa(pgrp) + later)));
  }

  lemma NoParenAfterComm(state: char, ppid: int, pgrp: int, later: string)
    requires state != ')' && ')' !in later
    ensures ')' !in " " + AfterComm(state, ppid, pgrp, later)
  {
  }

  lemma GroupFieldOf(before: string, after: string)
    requires ')' !in " " + after && |Fields(after)| >= 3
    ensures GroupField(before + ")" + (" " + after)) == Some(Fields(after)[2])
  {
    LastParenOf(before, " " + after);
    assert after != "";
    assert (before + ")" + (" " + after))[|before| + 2..] == after;
  }

  /** The parser inverts the layout for every command name, spaces and parentheses included, as long as
      no later field holds a closing parenthesis. */
  lemma GroupRecovered(pid: int, comm: string, state: char, ppid: int, pgrp: int, later: string)
    requires !IsSpace(state) && state != ')' && ')' !in later && (later != "" ==> later[0] == ' ')
    ensures GroupField(StatLine(pid, comm, state, ppid, pgrp, later)) == Some(Itoa(pgrp))
  {
    NoParenAfterComm(state, ppid, pgrp, later);
    FieldsAfterComm(state, ppid, pgrp, later);
    GroupFieldOf(Itoa(pid) + " (" + comm, AfterComm(state, ppid, pgrp, later));
  }

  /** The condition is needed: a later field with a closing parenthesis hides the group. */
  lemma LaterParenHidesGroup(pid: int, comm: string, state: char, ppid: int, pgrp: int)
    ensures GroupField(StatLine(pid, comm, state, ppid, pgrp, " )")) == None
  {
    var line := StatLine(pid, comm, state, ppid, pgrp, " )");
    var before := line[..|line| - 1];
    LastParenOf(before, "");
    assert line == before + ")" + "";
  }

  // ---------------------------------------------------------------- The scan

  /** An entry of /proc: what its name parses to, and its stat file if it could be read. */
  datatype Entry = Entry(isDir: bool, pid: Option<int>, stat: Option<string>)

  /** A process as the kernel describes it. */
  datatype Task = Task(pid: int, comm: string, state: char, ppid: int, pgrp: int, later: string)

  ghost predicate Printable(t: Task) {
    t.pid > 0 && !IsSpace(t.state) && t.state != ')' && ')' !in t.later && (t.later != "" ==> t.later[0] == ' ')
  }

  function EntryOf(t: Task): Entry {
    Entry(true, Some(t.pid), Some(StatLine(t.pid, t.comm, t.state, t.ppid, t.pgrp, t.later)))
  }

  /** The loop's test on one entry. */
  predicate Selected(e: Entry, pgid: int) {
    && e.isDir && e.pid.Some? && e.pid.value > 0 && e.pid.value != pgid
    && e.stat.Some? && GroupField(e.stat.value) == Some(Itoa(pgid))
  }

  function SelectedPids(entries: seq<Entry>, pgid: int): seq<int> {
    if entries == [] then []
    else
      var rest := SelectedPids(entries[..|entries| - 1], pgid);
      var e := entries[|entries| - 1];
      if Selected(e, pgid) then rest + [e.pid.value] else rest
  }

  method GetChildrenInGroup(entries: seq<Entry>, pgid: int) returns (children: seq<int>)
    ensures children == if pgid <= 0 then [] else SelectedPids(entries, pgid)
  {
    if pgid <= 0 { return []; }
    children := [];
    var target := Itoa(pgid);
    for i := 0 to |entries|
      invariant children == SelectedPids(entries[..i], pgid)
    {
      assert entries[..i + 1][..i] == entries[..i];
      var e := entries[i];
      if !e.isDir { continue; }
      if e.pid.None? || e.pid.value <= 0 || e.pid.value == pgid { continue; }
      if e.stat.None? { continue; }
      var statStr := e.stat.value;
      var idx := LastParen(statStr);
      if idx < 0 || idx + 2 >= |statStr| { continue; }
      var fields := Fields(statStr[idx + 2..]);
      if |fields| < 3 { continue; }
      if fields[2] == target {
        children := children + [e.pid.value];
      }
    }
    assert entries[..|entries|] == entries;
  }

  /** What a listing of /proc meets: a process that is still there, or an entry that is none: no directory, no
      number for a name, or gone by the time its stat file is read. */
  datatype Listed = Running(task: Task) | Other(entry: Entry)

  function Shown(l: Listed): Entry {
    match l
    case Running(t) => EntryOf(t)
    case Other(e) => e
  }

  ghost predicate Listable(l: Listed) {
    match l
    case Running(t) => Printable(t)
    case Other(e) => !e.isDir || e.pid.None? || e.pid.value <= 0 || e.stat.None?
  }

  /** The other processes of a group, in the order of the listing. */
  function GroupMembers(listing: seq<Listed>, pgid: int): seq<int> {
    if listing == [] then []
    else
      var rest := GroupMembers(listing[..|listing| - 1], pgid);
      match listing[|listing| - 1]
      case Running(t) => if t.pgrp == pgid && t.pid != pgid then rest + [t.pid] else rest
      case Other(_) => rest
  }

  /** Over any process table, and whatever else lies in /proc, the scan finds exactly the group's members other
      than its leader. */
  lemma {:induction false} ScanFindsGroup(listing: seq<Listed>, pgid: int)
    requires forall l | l in listing :: Listable(l)
    ensures SelectedPids(seq(|listing|, i requires 0 <= i < |listing| => Shown(listing[i])), pgid) ==
            GroupMembers(listing, pgid)
  {
    if listing != [] {
      var n := |listing| - 1;
      var entries := seq(|listing|, i requires 0 <= i < |listing| => Shown(listing[i]));
      var front := listing[..n];
      assert entries[..n] == seq(|front|, i requires 0 <= i < |front| => Shown(front[i]));
      ScanFindsGroup(front, pgid);
      assert listing[n] in listing;
      OneSelected(listing[n], pgid);
    }
  }

  lemma OneSelected(l: Listed, pgid: int)
    requires Listable(l)
    ensures Selected(Shown(l), pgid) <==> l.Running? && l.task.pgrp == pgid && l.task.pid != pgid
  {
    if l.Running? {
      var t := l.task;
      GroupRecovered(t.pid, t.comm, t.state, t.ppid, t.pgrp, t.later);
      if Itoa(t.pgrp) == Itoa(pgid) { ItoaInjective(t.pgrp, pgid); }
    }
  }
}
