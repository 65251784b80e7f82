/** gosrc/actions/queue.go: the deployment queue of one project, one running deploy and one pending slot in
    which the latest request wins. Requests are numbered in the order they arrive. */
module DeployQueue {
  import opened Wrappers

  /** A runQueuedDeploy goroutine: handed a deploy, inside deployFn, back from it, returned, or returned
      from a recovered panic. */
  datatype Worker = Handed(k: nat) | Running(k: nat) | Between | Exited | Panicked

  datatype State = State(isRunning: bool, pending: Option<nat>, workers: seq<Worker>,
                         enqueued: nat, started: seq<nat>, dropped: set<nat>)

  datatype Action = Enqueue | Begin(w: nat) | Return(w: nat) | Panic(w: nat) | Poll(w: nat)

  const Initial := State(false, None, [], 0, [], {})

  predicate Enabled(s: State, a: Action) {
    match a
    case Enqueue => true
    case Begin(w) => w < |s.workers| && s.workers[w].Handed?
    case Return(w) => w < |s.workers| && s.workers[w].Running?
    case Panic(w) => w < |s.workers| && s.workers[w].Running?
    case Poll(w) => w < |s.workers| && s.workers[w].Between?
  }

  /** One locked section of the code, or one boundary of deployFn. */
  function Apply(s: State, a: Action): State {
    if !Enabled(s, a) then s
    else
      match a
      case Enqueue =>
        if s.isRunning then
          s.(pending := Some(s.enqueued), enqueued := s.enqueued + 1,
             dropped := s.dropped + if s.pending.Some? then {s.pending.value} else {})
        else
          s.(isRunning := true, workers := s.workers + [Handed(s.enqueued)], enqueued := s.enqueued + 1)
      case Begin(w) => s.(workers := s.workers[w := Running(s.workers[w].k)], started := s.started + [s.workers[w].k])
      case Return(w) => s.(workers := s.workers[w := Between])
      case Panic(w) => s.(workers := s.workers[w := Panicked])
      case Poll(w) =>
        if s.pending.None? then s.(isRunning := false, workers := s.workers[w := Exited])
        else s.(pending := None, workers := s.workers[w := Handed(s.pending.value)])
  }

  function Exec(s: State, acts: seq<Action>): State {
    if acts == [] then s else Apply(Exec(s, acts[..|acts| - 1]), acts[|acts| - 1])
  }

  // ---------------------------------------------------------------- Safety

  predicate Live(w: Worker) {
    w.Handed? || w.Running? || w.Between?
  }

  function Last(s: State): Worker {
    if s.workers == [] then Exited else s.workers[|s.workers| - 1]
  }

  /** The deploys ever taken up: those started and the one about to start. */
  function Taken(s: State): seq<nat> {
    s.started + if Last(s).Handed? then [Last(s).k] else []
  }

  /** Only the newest worker may still be at work, and isRunning says whether it is, or died there. */
  ghost predicate OneWorker(s: State) {
    && (forall w | 0 <= w < |s.workers| - 1 :: s.workers[w] == Exited)
    && (s.isRunning <==> Last(s) != Exited)
    && (s.pending.Some? ==> s.isRunning)
    && (s.workers != [] ==> s.enqueued > 0)
  }

  ghost predicate Ascending(ks: seq<nat>) {
    forall i, j | 0 <= i < j < |ks| :: ks[i] < ks[j]
  }

  /** Every request was taken up, is pending, or was overwritten; the latest one was not overwritten. */
  ghost predicate Accounted(s: State) {
    && (forall k: nat :: k < s.enqueued <==> k in Taken(s) || s.pending == Some(k) || k in s.dropped)
    && (forall k | k in s.dropped :: k !in Taken(s) && s.pending != Some(k) && k + 1 < s.enqueued)
    && (s.pending.Some? ==> s.pending.value == s.enqueued - 1 && s.pending.value !in Taken(s))
    && (s.pending.None? && s.enqueued > 0 ==> Taken(s) != [] && Taken(s)[|Taken(s)| - 1] == s.enqueued - 1)
  }

  ghost predicate Good(s: State) {
    OneWorker(s) && Ascending(Taken(s)) && Accounted(s)
  }

  lemma OneWorkerKept(s: State, a: Action)
    requires OneWorker(s)
    ensures OneWorker(Apply(s, a))
  {
  }

  lemma TakenAfter(s: State, a: Action)
    requires OneWorker(s)
    ensures Taken(Apply(s, a)) ==
              if a == Enqueue && !s.isRunning then Taken(s) + [s.enqueued]
              else if a.Poll? && Enabled(s, a) && s.pending.Some? then Taken(s) + [s.pending.value]
              else Taken(s)
  {
  }

  lemma AscendingKept(s: State, a: Action)
    requires Good(s)
    ensures Ascending(Taken(Apply(s, a)))
  {
    TakenAfter(s, a);
    forall i | 0 <= i < |Taken(s)| ensures Taken(s)[i] < s.enqueued {
      assert Taken(s)[i] in Taken(s);
    }
  }

  lemma AccountedKept(s: State, a: Action)
    requires Good(s)
    ensures Accounted(Apply(s, a))
  {
    TakenAfter(s, a);
    OneWorkerKept(s, a);
    var t := Apply(s, a);
    forall k: nat ensures k < t.enqueued <==> k in Taken(t) || t.pending == Some(k) || k in t.dropped {
      assert k < s.enqueued <==> k in Taken(s) || s.pending == Some(k) || k in s.dropped;
    }
  }

  lemma GoodKept(s: State, a: Action)
    requires Good(s)
    ensures Good(Apply(s, a))
  {
    OneWorkerKept(s, a);
    AscendingKept(s, a);
    AccountedKept(s, a);
  }

  lemma {:induction false} AlwaysGood(acts: seq<Action>)
    ensures Good(Exec(Initial, acts))
  {
    if acts != [] {
      AlwaysGood(acts[..|acts| - 1]);
      GoodKept(Exec(Initial, acts[..|acts| - 1]), acts[|acts| - 1]);
    }
  }

  /** Safety in every interleaving, panics included. At most one goroutine is at work; deploys start in the
      order of their requests; the latest request is the pending one or, with the slot empty, the last one
      taken up; and a request is missing from both only if a later one overwrote it. */
  lemma QueueIsSafe(acts: seq<Action>)
    ensures var s := Exec(Initial, acts);
            && (forall v, w | 0 <= v < |s.workers| && 0 <= w < |s.workers| ::
                  Live(s.workers[v]) && Live(s.workers[w]) ==> v == w)
            && (forall i, j | 0 <= i < j < |s.started| :: s.started[i] < s.started[j] < s.enqueued)
            && (s.enqueued > 0 ==> if s.pending.Some? then s.pending.value == s.enqueued - 1
                                   else Taken(s) != [] && Taken(s)[|Taken(s)| - 1] == s.enqueued - 1)
            && (forall k | k in s.dropped :: k + 1 < s.enqueued && k !in s.started)
            && (forall k: nat | k < s.enqueued ::
                  k in s.started || Last(s) == Handed(k) || s.pending == Some(k) || k in s.dropped)
  {
    AlwaysGood(acts);
    var s := Exec(Initial, acts);
    forall i, j | 0 <= i < j < |s.started| ensures s.started[i] < s.started[j] < s.enqueued {
      assert s.started[j] in Taken(s) && Taken(s)[i] < Taken(s)[j];
    }
  }

  // ---------------------------------------------------------------- Progress

  ghost predicate PanicFree(acts: seq<Action>) {
    forall i | 0 <= i < |acts| :: !acts[i].Panic?
  }

  lemma NotPanickedKept(s: State, a: Action)
    requires OneWorker(s) && Last(s) != Panicked && !a.Panic?
    ensures Last(Apply(s, a)) != Panicked
  {
  }

  lemma {:induction false} NobodyPanicked(acts: seq<Action>)
    requires PanicFree(acts)
    ensures Last(Exec(Initial, acts)) != Panicked
  {
    if acts != [] {
      NobodyPanicked(acts[..|acts| - 1]);
      AlwaysGood(acts[..|acts| - 1]);
      NotPanickedKept(Exec(Initial, acts[..|acts| - 1]), acts[|acts| - 1]);
    }
  }

  /** Without panics isRunning holds exactly while a goroutine is at work, and nothing waits otherwise. */
  lemma RunningExactlyWhenAtWork(acts: seq<Action>)
    requires PanicFree(acts)
    ensures var s := Exec(Initial, acts);
            && (s.isRunning <==> exists w :: 0 <= w < |s.workers| && Live(s.workers[w]))
            && (s.pending.Some? ==> s.isRunning)
  {
    AlwaysGood(acts);
    NobodyPanicked(acts);
    var s := Exec(Initial, acts);
    assert s.isRunning ==> Live(s.workers[|s.workers| - 1]);
  }

  /** What will have been started once the queue has drained. */
  function Due(s: State): seq<nat> {
    Taken(s) + if s.pending.Some? then [s.pending.value] else []
  }

  function StepsLeft(s: State): nat {
    (match Last(s) case Handed(_) => 3 case Running(_) => 2 case Between => 1 case _ => 0)
    + if s.pending.Some? then 3 else 0
  }

  /** Every action takes a step of the worker, and none panics. */
  ghost predicate Draining(s: State, acts: seq<Action>) {
    forall i | 0 <= i < |acts| :: !acts[i].Enqueue? && !acts[i].Panic? && Enabled(Exec(s, acts[..i]), acts[i])
  }

  lemma DrainStep(s: State, a: Action)
    requires Good(s) && !a.Enqueue? && !a.Panic? && Enabled(s, a)
    ensures StepsLeft(Apply(s, a)) < StepsLeft(s) && Due(Apply(s, a)) == Due(s) && Last(Apply(s, a)) != Panicked
    ensures Apply(s, a).enqueued == s.enqueued
  {
    TakenAfter(s, a);
  }

  lemma {:induction false} DrainSteps(s: State, acts: seq<Action>)
    requires Good(s) && Last(s) != Panicked && Draining(s, acts)
    ensures var t := Exec(s, acts);
            && Good(t) && Last(t) != Panicked && t.enqueued == s.enqueued
            && |acts| + StepsLeft(t) <= StepsLeft(s) && Due(t) == Due(s)
  {
    if acts != [] {
      var front := acts[..|acts| - 1];
      assert forall i | 0 <= i < |front| :: front[..i] == acts[..i] && front[i] == acts[i];
      DrainSteps(s, front);
      DrainStep(Exec(s, front), acts[|acts| - 1]);
      GoodKept(Exec(s, front), acts[|acts| - 1]);
    }
  }

  lemma StuckOnlyWhenIdle(s: State)
    requires Good(s) && Last(s) != Panicked
    ensures s.isRunning <==> exists a :: Enabled(s, a) && !a.Enqueue? && !a.Panic?
    ensures !s.isRunning ==> s.pending.None? && s.started == Due(s)
  {
    if s.isRunning {
      var w: nat := |s.workers| - 1;
      var a := if s.workers[w].Handed? then Begin(w) else if s.workers[w].Running? then Return(w) else Poll(w);
      assert Enabled(s, a) && !a.Enqueue? && !a.Panic?;
    }
  }

  /** After the last request of a panic-free run the worker takes at most six more steps and starts what is
      due, so at most the pending deploy besides those taken up. It can be stuck only when it is idle, and
      then the latest request was the last to start. */
  lemma Drains(past: seq<Action>, acts: seq<Action>)
    requires PanicFree(past) && Draining(Exec(Initial, past), acts)
    ensures var s, t := Exec(Initial, past), Exec(Exec(Initial, past), acts);
            && |acts| <= 6 && |Due(s)| <= |Taken(s)| + 1 && t.started <= Due(s)
            && (t.isRunning <==> exists a :: Enabled(t, a) && !a.Enqueue? && !a.Panic?)
            && (!t.isRunning ==> t.pending.None? && t.started == Due(s)
                                 && (s.enqueued > 0 ==>
                                       t.started != [] && t.started[|t.started| - 1] == s.enqueued - 1))
  {
    var s, t := Exec(Initial, past), Exec(Exec(Initial, past), acts);
    AlwaysGood(past);
    NobodyPanicked(past);
    DrainSteps(s, acts);
    StuckOnlyWhenIdle(t);
  }

  // ---------------------------------------------------------------- After a panic

  lemma PanickedKept(s: State, a: Action)
    requires OneWorker(s) && Last(s) == Panicked
    ensures var t := Apply(s, a);
            t.started == s.started && t.workers == s.workers && OneWorker(t)
  {
  }

  lemma {:induction false} NothingStarts(s: State, acts: seq<Action>)
    requires OneWorker(s) && Last(s) == Panicked
    ensures var t := Exec(s, acts);
            t.started == s.started && t.workers == s.workers && OneWorker(t)
  {
    if acts != [] {
      NothingStarts(s, acts[..|acts| - 1]);
      PanickedKept(Exec(s, acts[..|acts| - 1]), acts[|acts| - 1]);
    }
  }

  lemma ExecOne(s: State, acts: seq<Action>, a: Action)
    ensures Exec(s, acts + [a]) == Apply(Exec(s, acts), a)
  {
    assert (acts + [a])[..|acts|] == acts;
  }

  lemma {:induction false} ExecFirst(s: State, a: Action, acts: seq<Action>)
    ensures Exec(s, [a] + acts) == Exec(Apply(s, a), acts)
  {
    if acts == [] {
      ExecOne(s, [], a);
      assert [a] + acts == [] + [a];
    } else {
      var front, last := acts[..|acts| - 1], acts[|acts| - 1];
      ExecFirst(s, a, front);
      assert [a] + acts == ([a] + front) + [last];
      ExecOne(s, [a] + front, last);
    }
  }

  /** The steps that take the worker of a queue with a request waiting to its next start. */
  function Serving(s: State): seq<Action>
    requires s.workers != [] && Live(Last(s)) && (Last(s).Handed? || s.pending.Some?)
    decreases if Last(s).Running? then 2 else if Last(s).Between? then 1 else 0
  {
    var w := |s.workers| - 1;
    if Last(s).Handed? then [Begin(w)]
    else
      var a := if Last(s).Running? then Return(w) else Poll(w);
      [a] + Serving(Apply(s, a))
  }

  lemma {:induction false} ServingServes(s: State)
    requires s.workers != [] && Live(Last(s)) && (Last(s).Handed? || s.pending.Some?)
    ensures |Exec(s, Serving(s)).started| == |s.started| + 1
    decreases if Last(s).Running? then 2 else if Last(s).Between? then 1 else 0
  {
    var w := |s.workers| - 1;
    if Last(s).Handed? {
      ExecOne(s, [], Begin(w));
      assert [] + [Begin(w)] == [Begin(w)];
    } else {
      var a := if Last(s).Running? then Return(w) else Poll(w);
      ServingServes(Apply(s, a));
      ExecFirst(s, a, Serving(Apply(s, a)));
    }
  }

  /** Exactly when a deploy has panicked, no deploy of the project can ever start again. */
  lemma WedgedExactly(past: seq<Action>)
    ensures var s := Exec(Initial, past);
            Last(s) == Panicked <==> forall acts :: Exec(s, acts).started == s.started
  {
    var s := Exec(Initial, past);
    AlwaysGood(past);
    if Last(s) == Panicked {
      forall acts ensures Exec(s, acts).started == s.started { NothingStarts(s, acts); }
    } else {
      var s1 := Apply(s, Enqueue);
      ServingServes(s1);
      ExecFirst(s, Enqueue, Serving(s1));
      assert Exec(s, [Enqueue] + Serving(s1)).started != s.started;
    }
  }

  /** A deploy that panics wedges its queue: isRunning stays set, with nobody at work and nothing started
      again, whatever follows. */
  lemma PanicWedges(past: seq<Action>, w: nat, future: seq<Action>)
    requires Enabled(Exec(Initial, past), Panic(w))
    ensures var s := Exec(Initial, past);
            var t := Exec(Apply(s, Panic(w)), future);
            t.isRunning && t.started == s.started && forall v | 0 <= v < |t.workers| :: !Live(t.workers[v])
  {
    var s := Exec(Initial, past);
    AlwaysGood(past);
    GoodKept(s, Panic(w));
    NothingStarts(Apply(s, Panic(w)), future);
  }

  // ---------------------------------------------------------------- Many projects

  /** getQueue: the queue of a service directory, created on first use. */
  function QueueOf(queues: map<string, State>, dir: string): State {
    if dir in queues then queues[dir] else Initial
  }

  function ExecAll(acts: seq<(string, Action)>): map<string, State> {
    if acts == [] then map[]
    else
      var queues, last := ExecAll(acts[..|acts| - 1]), acts[|acts| - 1];
      queues[last.0 := Apply(QueueOf(queues, last.0), last.1)]
  }

  function Only(acts: seq<(string, Action)>, dir: string): seq<Action> {
    if acts == [] then []
    else if acts[|acts| - 1].0 == dir then Only(acts[..|acts| - 1], dir) + [acts[|acts| - 1].1]
    else Only(acts[..|acts| - 1], dir)
  }

  /** Projects do not disturb each other: a queue is where its own requests and workers have brought it. */
  lemma {:induction false} QueuesAreIndependent(acts: seq<(string, Action)>, dir: string)
    ensures QueueOf(ExecAll(acts), dir) == Exec(Initial, Only(acts, dir))
  {
    if acts != [] {
      QueuesAreIndependent(acts[..|acts| - 1], dir);
      if acts[|acts| - 1].0 == dir {
        ExecOne(Initial, Only(acts[..|acts| - 1], dir), acts[|acts| - 1].1);
      }
    }
  }

  // ---------------------------------------------------------------- The code

  /** What a worker back from deployFn finds: the slot empties, or it is done and has run the latest. */
  lemma PollSettles(s: State)
    requires Good(s) && Last(s) == Between
    ensures var t := Apply(s, Poll(|s.workers| - 1));
            && Good(t) && t.pending.None? && t.enqueued == s.enqueued
            && (s.pending.Some? ==> t.isRunning && Last(t) == Handed(s.pending.value))
            && (s.pending.None? ==>
                  !t.isRunning && Last(t) == Exited && t.started != [] && t.started[|t.started| - 1] == t.enqueued - 1)
  {
    GoodKept(s, Poll(|s.workers| - 1));
  }

  class ProjectQueue {
    var isRunning: bool
    var pending: Option<nat>
    /** Requests so far; a request is known by its number. */
    var requests: nat
    ghost var s: State

    ghost predicate Valid()
      reads this
    {
      Good(s) && isRunning == s.isRunning && pending == s.pending && requests == s.enqueued
    }

    constructor ()
      ensures Valid() && s == Initial
    {
      isRunning, pending, requests, s := false, None, 0, Initial;
    }

    /** True if the deploy is started at once, false if it waits in the slot. */
    method EnqueueDeployment() returns (startNow: bool)
      requires Valid()
      modifies this
      ensures Valid() && s == Apply(old(s), Enqueue) && (startNow <==> !old(isRunning))
    {
      GoodKept(s, Enqueue);
      s := Apply(s, Enqueue);
      if isRunning {
        pending := Some(requests);
        requests := requests + 1;
        return false;
      }
      isRunning := true;
      requests := requests + 1;
      return true;
    }

    /** One deployFn call by the worker, with the requests that arrive meanwhile. */
    method DeployFn(arrivals: nat, panics: bool, ghost trace0: seq<Action>) returns (ghost trace: seq<Action>)
      requires Valid() && Last(s).Handed?
      modifies this
      ensures Valid() && Last(s) == (if panics then Panicked else Between)
      ensures arrivals == 0 ==> s.pending == old(s.pending)
      ensures forall s0 | old(s) == Exec(s0, trace0) :: s == Exec(s0, trace)
    {
      ghost var w := |s.workers| - 1;
      trace := trace0;
      trace := Advance(Begin(w), trace);
      for i := 0 to arrivals
        invariant Valid() && |s.workers| == w + 1 && Last(s).Running?
        invariant i == 0 ==> s.pending == old(s.pending)
        invariant forall s0 | old(s) == Exec(s0, trace0) :: s == Exec(s0, trace)
      {
        ghost var before := s;
        var _ := EnqueueDeployment();
        forall s0 | before == Exec(s0, trace) ensures s == Exec(s0, trace + [Enqueue]) { ExecOne(s0, trace, Enqueue); }
        trace := trace + [Enqueue];
      }
      trace := Advance(if panics then Panic(w) else Return(w), trace);
    }

    ghost method Advance(a: Action, trace0: seq<Action>) returns (trace: seq<Action>)
      requires Valid() && (a.Begin? || a.Return? || a.Panic?)
      modifies this`s
      ensures Valid() && s == Apply(old(s), a)
      ensures forall s0 | old(s) == Exec(s0, trace0) :: s == Exec(s0, trace)
    {
      GoodKept(s, a);
      forall s0 | s == Exec(s0, trace0) ensures Apply(s, a) == Exec(s0, trace0 + [a]) { ExecOne(s0, trace0, a); }
      trace := trace0 + [a];
      s := Apply(s, a);
    }

    /** The locked section of the worker's loop: the pending deploy is popped, or the worker signs off. */
    method Pop() returns (next: Option<nat>)
      requires Valid() && Last(s) == Between
      modifies this
      ensures Valid() && s == Apply(old(s), Poll(|old(s).workers| - 1)) && next == old(pending) && pending.None?
      ensures next.Some? ==> isRunning && Last(s) == Handed(next.value)
      ensures next.None? ==>
              !isRunning && Last(s) == Exited && s.started != [] && s.started[|s.started| - 1] == s.enqueued - 1
    {
      ghost var t := Apply(s, Poll(|s.workers| - 1));
      PollSettles(s);
      s := t;
      next := pending;
      if pending.None? {
        isRunning := false;
        return;
      }
      pending := None;
    }

    /** The i-th deployFn call sees arrivals[i] requests come in, and none once the list is used up; the
        call numbered panicAt panics. The code takes steps of the model only, and returns either from a
        panic with the queue still marked as running, or with the queue idle and the latest request the
        last one started. */
    method RunQueuedDeploy(arrivals: seq<nat>, panicAt: nat) returns (ghost trace: seq<Action>)
      requires Valid() && Last(s).Handed?
      modifies this
      ensures Valid() && s == Exec(old(s), trace)
      ensures Last(s) == Panicked ==> isRunning
      ensures Last(s) != Panicked ==>
                && !isRunning && pending.None? && Last(s) == Exited
                && s.started != [] && s.started[|s.started| - 1] == s.enqueued - 1
    {
      var i := 0;
      trace := DeployFn(if i < |arrivals| then arrivals[i] else 0, i == panicAt, []);
      while i != panicAt
        invariant Valid() && s == Exec(old(s), trace) && Last(s) == (if i == panicAt then Panicked else Between)
        decreases if i < |arrivals| then |arrivals| - i else 0, if pending.Some? then 1 else 0
      {
        ExecOne(old(s), trace, Poll(|s.workers| - 1));
        trace := trace + [Poll(|s.workers| - 1)];
        var next := Pop();
        if next.None? {
          return;
        }
        i := i + 1;
        trace := DeployFn(if i < |arrivals| then arrivals[i] else 0, i == panicAt, trace);
      }
    }
  }
}
